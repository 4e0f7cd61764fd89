/**
 The error model of the service: problem details (section 3.1 of RFC 7807), their JSON form, and the
 mapping from application errors to responses.
 */
module Problems {
  import opened Decimal
  import opened Http
  import opened Text
  import opened Wrappers
  import Json

  datatype InvalidParam = InvalidParam(name: string, reason: string)

  datatype ProblemDetails = ProblemDetails(
    typeUri: string,
    title: string,
    status: U16,
    detail: string,
    instance: Option<string>,
    invalidParams: Option<seq<InvalidParam>>)
  {
    function WithType(uri: string): ProblemDetails {
      this.(typeUri := uri)
    }

    function WithInvalidParams(params: seq<InvalidParam>): ProblemDetails {
      this.(invalidParams := Some(params))
    }
  }

  function DefaultType(status: U16): string {
    match status
    case 400 => "urn:problem-type:bad-request"
    case 401 => "urn:problem-type:unauthorized"
    case 403 => "urn:problem-type:forbidden"
    case 404 => "urn:problem-type:not-found"
    case 405 => "urn:problem-type:method-not-allowed"
    case 409 => "urn:problem-type:conflict"
    case 422 => "urn:problem-type:unprocessable-entity"
    case 500 => "urn:problem-type:internal-server-error"
    case 503 => "urn:problem-type:service-unavailable"
    case _ => "about:blank"
  }

  function Problem(status: U16, title: string, detail: string): ProblemDetails {
    ProblemDetails(DefaultType(status), title, status, detail, None, None)
  }

  function BadRequest(detail: string): ProblemDetails { Problem(400, "Bad Request", detail) }

  function Unauthorized(detail: string): ProblemDetails { Problem(401, "Unauthorized", detail) }

  function NotFound(detail: string): ProblemDetails { Problem(404, "Not Found", detail) }

  function Conflict(detail: string): ProblemDetails { Problem(409, "Conflict", detail) }

  const ALREADY_EXISTS := "A record with the given identifier or data already exists."
  const UNEXPECTED := "An unexpected internal server error occurred. Please try again later."

  function AlreadyExists(): ProblemDetails { Conflict(ALREADY_EXISTS) }

  function InternalServerError(): ProblemDetails {
    Problem(500, "Internal Server Error", UNEXPECTED)
  }

  /* ----- application errors ----- */

  // What the driver reports about an error raised by the database server.
  datatype DbError = DbError(isUniqueViolation: bool, code: Option<string>, message: string)

  // `sqlx::Error`: a server error, or any other failure known here only by its printed form.
  datatype SqlxError = Server(dbError: DbError) | Other(display: string)

  datatype AppError =
    | BadRequestError(detail: string)
    | ValidationError(detail: string)
    | ValidationFailed(detail: string, params: seq<InvalidParam>)
    | UnauthorizedError(detail: string)
    | ForbiddenError(detail: string)
    | NotFoundError(detail: string)
    | MethodNotAllowedError(detail: string)
    | ConflictError(detail: string)
    | UnprocessableEntityError(detail: string)
    | Database(err: SqlxError)
    | Internal(reason: string)
    | ServiceUnavailableError(detail: string)

  predicate IsUniqueViolation(err: SqlxError) {
    match err
    case Server(db) =>
      || db.isUniqueViolation
      || db.code == Some("23505")
      || Contains(Lowercase(db.message), "unique")
      || Contains(Lowercase(db.message), "duplicate")
    case Other(display) =>
      || Contains(Lowercase(display), "unique constraint")
      || Contains(Lowercase(display), "duplicate key")
  }

  function ToProblem(e: AppError): ProblemDetails {
    match e
    case BadRequestError(detail) => BadRequest(detail)
    case ValidationError(detail) =>
      Problem(400, "Validation Error", detail).WithType("urn:problem-type:validation-error")
    case ValidationFailed(detail, params) =>
      Problem(400, "Validation Error", detail).WithType("urn:problem-type:validation-error").WithInvalidParams(params)
    case UnauthorizedError(detail) => Unauthorized(detail)
    case ForbiddenError(detail) => Problem(403, "Forbidden", detail)
    case NotFoundError(detail) => NotFound(detail)
    case MethodNotAllowedError(detail) => Problem(405, "Method Not Allowed", detail)
    case ConflictError(detail) => Conflict(detail)
    case UnprocessableEntityError(detail) => Problem(422, "Unprocessable Entity", detail)
    case Database(err) =>
      if IsUniqueViolation(err) then AlreadyExists() else InternalServerError()
    case Internal(_) => InternalServerError()
    case ServiceUnavailableError(detail) => Problem(503, "Service Unavailable", detail)
  }

  /* ----- JSON form ----- */

  function EncodeParams(params: seq<InvalidParam>): seq<Json.Value> {
    if params == [] then []
    else
      [Json.Obj([Json.Member("name", Json.Str(params[0].name)), Json.Member("reason", Json.Str(params[0].reason))])]
      + EncodeParams(params[1..])
  }

  // An absent option has no member at all.
  function OptionalMember(name: string, value: Option<Json.Value>): seq<Json.Member> {
    if value.None? then [] else [Json.Member(name, value.value)]
  }

  function Encode(p: ProblemDetails): Json.Value {
    Json.Obj(
      [Json.Member("type", Json.Str(p.typeUri)), Json.Member("title", Json.Str(p.title)),
       Json.Member("status", Json.Num(p.status)), Json.Member("detail", Json.Str(p.detail))]
      + OptionalMember("instance", if p.instance.None? then None else Some(Json.Str(p.instance.value)))
      + OptionalMember("invalid_params",
                       if p.invalidParams.None? then None
                       else Some(Json.Arr(EncodeParams(p.invalidParams.value)))))
  }

  datatype Lookup = Absent | Unique(value: Json.Value) | Repeated

  // The member called `name`; other members are ignored, a second occurrence is an error.
  function Find(members: seq<Json.Member>, name: string): Lookup {
    if members == [] then Absent
    else
      var rest := Find(members[1..], name);
      if members[0].name != name then rest
      else if rest.Absent? then Unique(members[0].value)
      else Repeated
  }

  function DecodeParams(items: seq<Json.Value>): Option<seq<InvalidParam>> {
    if items == [] then Some([])
    else if !items[0].Obj? then None
    else
      match (Find(items[0].members, "name"), Find(items[0].members, "reason"), DecodeParams(items[1..]))
      case (Unique(Str(name)), Unique(Str(reason)), Some(rest)) => Some([InvalidParam(name, reason)] + rest)
      case _ => None
  }

  function DecodeInstance(found: Lookup): Option<Option<string>> {
    match found
    case Absent => Some(None)
    case Unique(Null) => Some(None)
    case Unique(Str(uri)) => Some(Some(uri))
    case _ => None
  }

  function DecodeInvalidParams(found: Lookup): Option<Option<seq<InvalidParam>>> {
    match found
    case Absent => Some(None)
    case Unique(Null) => Some(None)
    case Unique(Arr(items)) =>
      var params := DecodeParams(items);
      if params.None? then None else Some(Some(params.value))
    case _ => None
  }

  function Decode(v: Json.Value): Option<ProblemDetails> {
    if !v.Obj? then None
    else
      match (Find(v.members, "type"), Find(v.members, "title"), Find(v.members, "status"), Find(v.members, "detail"),
             DecodeInstance(Find(v.members, "instance")), DecodeInvalidParams(Find(v.members, "invalid_params")))
      case (Unique(Str(typeUri)), Unique(Str(title)), Unique(Num(status)), Unique(Str(detail)),
            Some(instance), Some(params)) =>
        if status < 0x1_0000 then Some(ProblemDetails(typeUri, title, status, detail, instance, params)) else None
      case _ => None
  }

  function ReadProblem(body: string): Option<ProblemDetails> {
    var v := Json.Read(body);
    if v.Some? && v.value.rest == "" then Decode(v.value.value) else None
  }

  const CONTENT_TYPE := "content-type"
  const PROBLEM_JSON := "application/problem+json"

  // `IntoResponse for ProblemDetails`; writing these strings and numbers as JSON cannot fail.
  function IntoResponse(p: ProblemDetails): Response {
    Response(if 100 <= p.status < 1000 then p.status else 500,
             map[CONTENT_TYPE := [PROBLEM_JSON]],
             Json.Print(Encode(p)))
  }

  /* ----- properties ----- */

  lemma {:induction false} FindConcat(a: seq<Json.Member>, b: seq<Json.Member>, name: string)
    ensures Find(b, name).Absent? ==> Find(a + b, name) == Find(a, name)
    ensures Find(a, name).Absent? ==> Find(a + b, name) == Find(b, name)
  {
    if a == [] {
      assert a + b == b;
    } else {
      assert (a + b)[1..] == a[1..] + b;
      FindConcat(a[1..], b, name);
    }
  }

  lemma FindSingle(name: string, value: Json.Value, wanted: string)
    ensures Find([Json.Member(name, value)], wanted) == if name == wanted then Unique(value) else Absent
  {
  }

  lemma FindPair(a: Json.Member, b: Json.Member, wanted: string)
    requires a.name != b.name
    ensures Find([a, b], wanted)
         == if a.name == wanted then Unique(a.value) else if b.name == wanted then Unique(b.value) else Absent
  {
    assert [a, b] == [a] + [b];
    FindSingle(a.name, a.value, wanted);
    FindSingle(b.name, b.value, wanted);
    FindConcat([a], [b], wanted);
  }

  lemma {:induction false} DecodeEncodedParams(params: seq<InvalidParam>)
    ensures DecodeParams(EncodeParams(params)) == Some(params)
  {
    if params != [] {
      DecodeEncodedParams(params[1..]);
      var name := Json.Member("name", Json.Str(params[0].name));
      var reason := Json.Member("reason", Json.Str(params[0].reason));
      FindPair(name, reason, "name");
      FindPair(name, reason, "reason");
      assert EncodeParams(params)[1..] == EncodeParams(params[1..]);
      assert params == [params[0]] + params[1..];
    }
  }

  lemma FindRequired(p: ProblemDetails, name: string)
    ensures var required := [Json.Member("type", Json.Str(p.typeUri)), Json.Member("title", Json.Str(p.title)),
                             Json.Member("status", Json.Num(p.status)), Json.Member("detail", Json.Str(p.detail))];
            Find(required, name) ==
            if name == "type" then Unique(Json.Str(p.typeUri))
            else if name == "title" then Unique(Json.Str(p.title))
            else if name == "status" then Unique(Json.Num(p.status))
            else if name == "detail" then Unique(Json.Str(p.detail))
            else Absent
  {
    var a, b := Json.Member("type", Json.Str(p.typeUri)), Json.Member("title", Json.Str(p.title));
    var c, d := Json.Member("status", Json.Num(p.status)), Json.Member("detail", Json.Str(p.detail));
    assert a.name != b.name && |c.name| == |d.name| == 6 && c.name[0] != d.name[0];
    FindPair(a, b, name);
    FindPair(c, d, name);
    FindConcat([a, b], [c, d], name);
    assert [a, b, c, d] == [a, b] + [c, d];
  }

  lemma FindEncoded(p: ProblemDetails, name: string)
    requires name in {"type", "title", "status", "detail", "instance", "invalid_params"}
    ensures Find(Encode(p).members, name) ==
            match name
            case "type" => Unique(Json.Str(p.typeUri))
            case "title" => Unique(Json.Str(p.title))
            case "status" => Unique(Json.Num(p.status))
            case "detail" => Unique(Json.Str(p.detail))
            case "instance" => if p.instance.None? then Absent else Unique(Json.Str(p.instance.value))
            case _ => if p.invalidParams.None? then Absent else Unique(Json.Arr(EncodeParams(p.invalidParams.value)))
  {
    var required := [Json.Member("type", Json.Str(p.typeUri)), Json.Member("title", Json.Str(p.title)),
                     Json.Member("status", Json.Num(p.status)), Json.Member("detail", Json.Str(p.detail))];
    var instance := OptionalMember("instance", if p.instance.None? then None else Some(Json.Str(p.instance.value)));
    var params := OptionalMember("invalid_params",
                                 if p.invalidParams.None? then None
                                 else Some(Json.Arr(EncodeParams(p.invalidParams.value))));
    FindRequired(p, name);
    FindConcat(required, instance, name);
    FindConcat(required + instance, params, name);
    if p.instance.Some? {
      FindSingle("instance", Json.Str(p.instance.value), name);
    }
    if p.invalidParams.Some? {
      FindSingle("invalid_params", Json.Arr(EncodeParams(p.invalidParams.value)), name);
    }
  }

  /** Nothing is lost or invented in the JSON object, and `Some([])` stays apart from `None`. */
  lemma DecodeEncoded(p: ProblemDetails)
    ensures Decode(Encode(p)) == Some(p)
  {
    FindEncoded(p, "type");
    FindEncoded(p, "title");
    FindEncoded(p, "status");
    FindEncoded(p, "detail");
    FindEncoded(p, "instance");
    FindEncoded(p, "invalid_params");
    if p.invalidParams.Some? {
      DecodeEncodedParams(p.invalidParams.value);
    }
  }

  // A member that occurs twice is an error, wherever the two are.
  lemma {:induction false} FindRepeated(members: seq<Json.Member>, i: nat, j: nat)
    requires i < j < |members| && members[i].name == members[j].name
    ensures Find(members, members[i].name) == Repeated
  {
    if i == 0 {
      FindPresent(members[1..], j - 1);
    } else {
      FindRepeated(members[1..], i - 1, j - 1);
    }
  }

  lemma {:induction false} FindPresent(members: seq<Json.Member>, j: nat)
    requires j < |members|
    ensures !Find(members, members[j].name).Absent?
  {
    if j > 0 {
      FindPresent(members[1..], j - 1);
    }
  }

  /** An optional member that is `null` is read as if it were absent. */
  lemma NullIsAbsent(p: ProblemDetails)
    requires p.instance.None? && p.invalidParams.None?
    ensures Decode(Json.Obj(
                     [Json.Member("type", Json.Str(p.typeUri)), Json.Member("title", Json.Str(p.title)),
                      Json.Member("status", Json.Num(p.status)), Json.Member("detail", Json.Str(p.detail))]
                     + [Json.Member("instance", Json.Null), Json.Member("invalid_params", Json.Null)])) == Some(p)
  {
    var required := [Json.Member("type", Json.Str(p.typeUri)), Json.Member("title", Json.Str(p.title)),
                     Json.Member("status", Json.Num(p.status)), Json.Member("detail", Json.Str(p.detail))];
    var a, b := Json.Member("instance", Json.Null), Json.Member("invalid_params", Json.Null);
    forall name | name in {"type", "title", "status", "detail", "instance", "invalid_params"}
      ensures Find(required + [a, b], name) ==
              if Find(required, name).Absent? then Unique(Json.Null) else Find(required, name)
    {
      FindRequired(p, name);
      FindPair(a, b, name);
      FindConcat(required, [a, b], name);
    }
    FindRequired(p, "type");
    FindRequired(p, "title");
    FindRequired(p, "status");
    FindRequired(p, "detail");
    FindRequired(p, "instance");
    FindRequired(p, "invalid_params");
  }

  /** A client reads no problem out of an object in which one of its members is repeated. */
  lemma RepeatedMemberIsRefused(members: seq<Json.Member>, i: nat, j: nat)
    requires i < j < |members| && members[i].name == members[j].name
    requires members[i].name in {"type", "title", "status", "detail", "instance", "invalid_params"}
    ensures Decode(Json.Obj(members)).None?
  {
    FindRepeated(members, i, j);
  }

  /**
   The text of the response body, read back by a client, is the problem that was sent. The HTTP status repeats its
   `status` exactly when that has three digits, and is 500 otherwise.
   */
  lemma BodyRoundTrip(p: ProblemDetails)
    ensures ReadProblem(IntoResponse(p).body) == Some(p)
    ensures IntoResponse(p).status == p.status <==> 100 <= p.status <= 999
    ensures IntoResponse(p).status in {p.status, 500}
  {
    Json.ReadPrinted(Encode(p), "");
    assert Json.Print(Encode(p)) + "" == Json.Print(Encode(p));
    DecodeEncoded(p);
  }

  /** Two different problems never have the same body. */
  lemma BodyIdentifiesProblem(p: ProblemDetails, q: ProblemDetails)
    ensures IntoResponse(p).body == IntoResponse(q).body <==> p == q
  {
    BodyRoundTrip(p);
    BodyRoundTrip(q);
  }

  /* ----- the promised answer to every error ----- */

  // The failure is the server's report of a unique violation, or has its words, in any ASCII case.
  ghost predicate ReadsAsConflict(err: SqlxError) {
    match err
    case Server(db) =>
      || db.isUniqueViolation
      || db.code == Some("23505")
      || Mentions(db.message, "unique")
      || Mentions(db.message, "duplicate")
    case Other(display) => Mentions(display, "unique constraint") || Mentions(display, "duplicate key")
  }

  lemma LowercaseWords()
    ensures forall word :: word in {"unique", "duplicate", "unique constraint", "duplicate key"}
                           ==> Lowercase(word) == word
  {
  }

  /** The classifier takes exactly those failures for unique violations. */
  lemma ClassifierIsExact(err: SqlxError)
    ensures IsUniqueViolation(err) <==> ReadsAsConflict(err)
  {
    LowercaseWords();
    match err
    case Server(db) =>
      LowercaseContains(db.message, "unique");
      LowercaseContains(db.message, "duplicate");
    case Other(display) =>
      LowercaseContains(display, "unique constraint");
      LowercaseContains(display, "duplicate key");
  }

  // The code the service promises for each error.
  ghost function PromisedStatus(e: AppError): nat {
    match e
    case BadRequestError(_) => 400
    case ValidationError(_) => 400
    case ValidationFailed(_, _) => 400
    case UnauthorizedError(_) => 401
    case ForbiddenError(_) => 403
    case NotFoundError(_) => 404
    case MethodNotAllowedError(_) => 405
    case ConflictError(_) => 409
    case UnprocessableEntityError(_) => 422
    case Database(err) => if ReadsAsConflict(err) then 409 else 500
    case Internal(_) => 500
    case ServiceUnavailableError(_) => 503
  }

  // The names that go with a code: its type and its title.
  ghost function CodeNames(status: nat): (string, string) {
    match status
    case 400 => ("urn:problem-type:bad-request", "Bad Request")
    case 401 => ("urn:problem-type:unauthorized", "Unauthorized")
    case 403 => ("urn:problem-type:forbidden", "Forbidden")
    case 404 => ("urn:problem-type:not-found", "Not Found")
    case 405 => ("urn:problem-type:method-not-allowed", "Method Not Allowed")
    case 409 => ("urn:problem-type:conflict", "Conflict")
    case 422 => ("urn:problem-type:unprocessable-entity", "Unprocessable Entity")
    case 503 => ("urn:problem-type:service-unavailable", "Service Unavailable")
    case _ => ("urn:problem-type:internal-server-error", "Internal Server Error")
  }

  ghost function PromisedNames(e: AppError): (string, string) {
    if e.ValidationError? || e.ValidationFailed? then ("urn:problem-type:validation-error", "Validation Error")
    else CodeNames(PromisedStatus(e))
  }

  ghost function PromisedDetail(e: AppError): string {
    if !Hidden(e) then e.detail
    else if PromisedStatus(e) == 409 then ALREADY_EXISTS else UNEXPECTED
  }

  // The whole document a client is to read about the error.
  ghost function Promised(e: AppError): ProblemDetails {
    ProblemDetails(
      PromisedNames(e).0, PromisedNames(e).1, PromisedStatus(e), PromisedDetail(e),
      None, if e.ValidationFailed? then Some(e.params) else None)
  }

  lemma TypeOfCode(status: U16)
    ensures DefaultType(status) ==
            if status in {400, 401, 403, 404, 405, 409, 422, 500, 503} then CodeNames(status).0 else "about:blank"
  {
  }

  lemma HiddenKeepsPromise(e: AppError)
    requires Hidden(e)
    ensures ToProblem(e) == Promised(e)
  {
    HiddenProblem(e);
    if Verdict(e) {
      TypeOfCode(409);
    } else {
      TypeOfCode(500);
    }
  }

  lemma ToProblemKeepsPromise(e: AppError)
    ensures ToProblem(e) == Promised(e)
  {
    if Hidden(e) {
      HiddenKeepsPromise(e);
    } else if !e.ValidationError? && !e.ValidationFailed? {
      TypeOfCode(PromisedStatus(e));
    }
  }

  /** Whatever the error, its response has the promised code and a body from which the promised document is read. */
  lemma ErrorResponseAgrees(e: AppError)
    ensures var r := IntoResponse(ToProblem(e));
            && r.status == PromisedStatus(e)
            && Get(r.headers, "content-type") == ["application/problem+json"]
            && ReadProblem(r.body) == Some(Promised(e))
  {
    ToProblemKeepsPromise(e);
    BodyRoundTrip(ToProblem(e));
  }

  // The errors whose cause must stay on the server.
  predicate Hidden(e: AppError) {
    e.Internal? || e.Database?
  }

  ghost predicate Verdict(e: AppError) {
    e.Database? && ReadsAsConflict(e.err)
  }

  lemma HiddenProblem(e: AppError)
    requires Hidden(e)
    ensures ToProblem(e) == if Verdict(e) then AlreadyExists() else InternalServerError()
  {
    if e.Database? {
      ClassifierIsExact(e.err);
      DatabaseProblem(e.err);
    }
  }

  lemma DatabaseProblem(err: SqlxError)
    ensures ToProblem(Database(err)) == if IsUniqueViolation(err) then AlreadyExists() else InternalServerError()
  {
  }

  lemma HiddenCodes()
    ensures AlreadyExists().status == 409 && InternalServerError().status == 500
  {
  }

  /** The response to a hidden error tells the client its unique-violation verdict and nothing else. */
  lemma HiddenErrorsRevealOnlyVerdict(e: AppError, f: AppError)
    requires Hidden(e) && Hidden(f)
    ensures IntoResponse(ToProblem(e)) == IntoResponse(ToProblem(f)) <==> Verdict(e) == Verdict(f)
  {
    HiddenProblem(e);
    HiddenProblem(f);
    HiddenCodes();
  }

  /** Changing the case of ASCII letters in a database message never changes the verdict. */
  lemma VerdictIgnoresCase(e: SqlxError, f: SqlxError)
    requires match (e, f)
             case (Server(a), Server(b)) =>
               a.isUniqueViolation == b.isUniqueViolation && a.code == b.code && SameUpToCase(a.message, b.message)
             case (Other(a), Other(b)) => SameUpToCase(a, b)
             case _ => false
    ensures IsUniqueViolation(e) == IsUniqueViolation(f)
  {
    match (e, f)
    case (Server(a), Server(b)) => SameLowercase(a.message, b.message);
    case (Other(a), Other(b)) => SameLowercase(a, b);
  }
}
