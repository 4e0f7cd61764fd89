/** The cross-origin policy and the security headers. */
module Security {
  import opened Config
  import opened Http
  import opened Text
  import opened Wrappers

  /* ----- build_cors_layer ----- */

  // tower-http refuses to build a list that holds the wildcard: the service then does not start.
  datatype CorsPolicy = AllowList(origins: seq<string>) | Permissive | StartupPanic

  // `str::parse::<HeaderValue>` succeeds: tabs and everything but control characters and DEL.
  predicate HeaderValid(s: string) {
    forall k :: 0 <= k < |s| ==> var n := s[k] as int; n == 9 || (n >= 32 && n != 127)
  }

  // Every character is a tab, or neither a control character nor DEL.
  ghost predicate Sendable(s: string) {
    forall c :: c in s ==> c == '\t' || ' ' <= c <= '~' || c as int >= 0x80
  }

  lemma HeaderValidMeans(s: string)
    ensures HeaderValid(s) <==> Sendable(s)
  {
    forall k | 0 <= k < |s| ensures s[k] in s {
    }
    if HeaderValid(s) {
      forall c | c in s ensures c == '\t' || ' ' <= c <= '~' || c as int >= 0x80 {
        var k :| 0 <= k < |s| && s[k] == c;
      }
    }
  }

  function KeepHeaderValid(origins: seq<string>): seq<string> {
    if origins == [] then []
    else (if HeaderValid(origins[0]) then [origins[0]] else []) + KeepHeaderValid(origins[1..])
  }

  function BuildCorsLayer(environment: AppEnvironment, allowedOrigins: seq<string>): CorsPolicy {
    if environment.Production? then
      var parsed := KeepHeaderValid(allowedOrigins);
      if "*" in parsed then StartupPanic else AllowList(parsed)
    else Permissive
  }

  // The Access-Control-Allow-Origin value given to a request with this Origin.
  function AllowedOrigin(policy: CorsPolicy, origin: Option<string>): Option<string> {
    match policy
    case AllowList(origins) => if origin.Some? && origin.value in origins then origin else None
    case Permissive => Some("*")
    case StartupPanic => None
  }

  lemma {:induction false} KeepHeaderValidMembers(origins: seq<string>, s: string)
    ensures s in KeepHeaderValid(origins) <==> s in origins && HeaderValid(s)
  {
    if origins != [] {
      KeepHeaderValidMembers(origins[1..], s);
      assert s in origins <==> s == origins[0] || s in origins[1..];
    }
  }

  // The policy of a production service whose ALLOWED_ORIGINS is `raw`.
  function ProductionPolicy(raw: string): CorsPolicy {
    BuildCorsLayer(Production, ParseAllowedOrigins(raw))
  }

  function Echo(raw: string, origin: string): Option<string> {
    AllowedOrigin(ProductionPolicy(raw), Some(origin))
  }

  /** The service fails to start exactly when some segment of the variable is a lone asterisk. */
  lemma PanicsOnWildcard(raw: string)
    ensures ProductionPolicy(raw).StartupPanic? <==> exists k: nat :: SegmentIs(raw, k, "*")
  {
    ParseMembers(raw, "*");
    KeepHeaderValidMembers(ParseAllowedOrigins(raw), "*");
  }

  /** End to end: an Origin is echoed exactly when a segment of the variable, trimmed, is that very origin. */
  lemma EchoedExactlyWhenListed(raw: string, origin: string)
    requires !ProductionPolicy(raw).StartupPanic?
    ensures Echo(raw, origin) in {None, Some(origin)}
    ensures Echo(raw, origin) == Some(origin)
       <==> origin != "" && Sendable(origin) && exists k: nat :: SegmentIs(raw, k, origin)
  {
    HeaderValidMeans(origin);
    ParseMembers(raw, origin);
    KeepHeaderValidMembers(ParseAllowedOrigins(raw), origin);
  }

  /**
   From the environment to the answer: outside production every origin is allowed, whatever is listed. In production
   the policy is that of the variable, and without the variable, or without an Origin, nothing is allowed.
   */
  lemma CorsFromEnvironment(vars: Variables, config: AppConfig, origin: Option<string>)
    requires Means(vars, config)
    ensures var policy := BuildCorsLayer(config.environment, config.allowedOrigins);
            if config.environment != Production then AllowedOrigin(policy, origin) == Some("*")
            else if "ALLOWED_ORIGINS" in vars && origin.Some?
            then policy == ProductionPolicy(vars["ALLOWED_ORIGINS"])
            else AllowedOrigin(policy, origin) == None
  {
  }

  lemma {:induction false} KeepHeaderValidConcat(a: seq<string>, b: seq<string>)
    ensures KeepHeaderValid(a + b) == KeepHeaderValid(a) + KeepHeaderValid(b)
  {
    if a == [] {
      assert a + b == b;
    } else {
      assert (a + b)[1..] == a[1..] + b;
      KeepHeaderValidConcat(a[1..], b);
    }
  }

  /** Joining two lists with a comma allows exactly the union of what each allows. */
  lemma EchoOfConcat(a: string, b: string, origin: string)
    requires !ProductionPolicy(a + "," + b).StartupPanic?
    ensures !ProductionPolicy(a).StartupPanic? && !ProductionPolicy(b).StartupPanic?
    ensures Echo(a + "," + b, origin).Some? <==> Echo(a, origin).Some? || Echo(b, origin).Some?
  {
    ParseConcat(a, b);
    KeepHeaderValidConcat(ParseAllowedOrigins(a), ParseAllowedOrigins(b));
  }

  /** A blank or malformed neighbour, on either side, changes no answer. */
  lemma MalformedNeighbourIsHarmless(raw: string, neighbour: string)
    requires CommaFree(neighbour) && (Trim(neighbour) == "" || !Sendable(Trim(neighbour)))
    ensures ProductionPolicy(raw + "," + neighbour) == ProductionPolicy(raw)
    ensures ProductionPolicy(neighbour + "," + raw) == ProductionPolicy(raw)
  {
    SplitCommaFree(neighbour);
    var trimmed := Trim(neighbour);
    HeaderValidMeans(trimmed);
    assert TrimAll([neighbour]) == [trimmed];
    assert NonEmpty([trimmed]) == if trimmed == "" then [] else [trimmed];
    assert KeepHeaderValid(ParseAllowedOrigins(neighbour)) == [];
    ParseConcat(raw, neighbour);
    ParseConcat(neighbour, raw);
    KeepHeaderValidConcat(ParseAllowedOrigins(raw), ParseAllowedOrigins(neighbour));
    KeepHeaderValidConcat(ParseAllowedOrigins(neighbour), ParseAllowedOrigins(raw));
  }

  /* ----- security_headers_middleware ----- */

  const NOSNIFF := "x-content-type-options"
  const FRAME_OPTIONS := "x-frame-options"
  const TRANSPORT_SECURITY := "strict-transport-security"
  const CONTENT_POLICY := "content-security-policy"
  const REFERRER := "referrer-policy"
  const XSS_PROTECTION := "x-xss-protection"
  const PERMISSIONS := "permissions-policy"

  // The seven headers every response is promised to carry.
  const PROMISED: map<string, string> := map[
    NOSNIFF := "nosniff",
    FRAME_OPTIONS := "DENY",
    TRANSPORT_SECURITY := "max-age=31536000; includeSubDomains",
    CONTENT_POLICY :=
      "default-src 'self'; script-src 'self' 'unsafe-inline'; style-src 'self' 'unsafe-inline'; "
      + "img-src 'self' data:; frame-ancestors 'none';",
    REFERRER := "strict-origin-when-cross-origin",
    XSS_PROTECTION := "0",
    PERMISSIONS := "geolocation=(), camera=(), microphone=()"]

  // Each promised header has exactly its one fixed value.
  predicate Hardened(headers: HeaderMap) {
    forall name :: name in PROMISED ==> Get(headers, name) == [PROMISED[name]]
  }

  // The header map the middleware leaves behind: the promised values, and the inner ones elsewhere.
  function Harden(headers: HeaderMap): HeaderMap {
    headers + Singletons(PROMISED)
  }

  function Singletons(values: map<string, string>): HeaderMap {
    map name | name in values :: [values[name]]
  }

  class Headers {
    var entries: HeaderMap

    constructor (entries: HeaderMap)
      ensures this.entries == entries
    {
      this.entries := entries;
    }

    method Insert(name: string, value: string)
      modifies this
      ensures entries == Http.Insert(old(entries), name, value)
    {
      entries := entries[name := [value]];
    }
  }

  /** The middleware's seven in-place inserts, on whatever headers the inner service produced. */
  method SecurityHeaders(headers: Headers)
    modifies headers
    ensures headers.entries == Harden(old(headers.entries))
  {
    ghost var inner := headers.entries;
    headers.Insert(NOSNIFF, PROMISED[NOSNIFF]);
    headers.Insert(FRAME_OPTIONS, PROMISED[FRAME_OPTIONS]);
    headers.Insert(TRANSPORT_SECURITY, PROMISED[TRANSPORT_SECURITY]);
    headers.Insert(CONTENT_POLICY, PROMISED[CONTENT_POLICY]);
    headers.Insert(REFERRER, PROMISED[REFERRER]);
    headers.Insert(XSS_PROTECTION, PROMISED[XSS_PROTECTION]);
    headers.Insert(PERMISSIONS, PROMISED[PERMISSIONS]);
    InsertsHarden(inner, PROMISED, NOSNIFF, FRAME_OPTIONS, TRANSPORT_SECURITY, CONTENT_POLICY, REFERRER,
                  XSS_PROTECTION, PERMISSIONS);
  }

  lemma InsertsHarden(inner: HeaderMap, values: map<string, string>,
                      a: string, b: string, c: string, d: string, e: string, f: string, g: string)
    requires values.Keys == {a, b, c, d, e, f, g}
    ensures inner[a := [values[a]]][b := [values[b]]][c := [values[c]]][d := [values[d]]][e := [values[e]]]
                 [f := [values[f]]][g := [values[g]]]
         == inner + Singletons(values)
  {
  }

  /** The result is hardened, nothing else moved, and hardening twice is hardening once. */
  lemma HardenIsExact(headers: HeaderMap)
    ensures Hardened(Harden(headers))
    ensures forall name :: name !in PROMISED ==> Get(Harden(headers), name) == Get(headers, name)
    ensures Harden(Harden(headers)) == Harden(headers)
    ensures Harden(headers) == headers <==> Hardened(headers)
  {
    if Hardened(headers) {
      forall name | name in PROMISED ensures name in headers && headers[name] == [PROMISED[name]] {
        assert Get(headers, name) == [PROMISED[name]];
      }
      assert Harden(headers) == headers;
    }
  }
}
