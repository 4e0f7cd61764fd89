/**
 The user handlers as requests that interleave on one shared table.

 Each event is what one request does between two suspension points: it begins (and is validated), it gets a
 connection and sends its statement, the statement takes effect in the database, its answer is delivered. The
 query may fail at any of these points, and the outer timeout may drop the request. A failure that the server
 reports ends the statement. Nothing else recalls a statement that has been sent: an INSERT cut off before it took
 effect is orphaned, and the database may still run it at any later moment, or never, with nobody to hear the
 answer. A SELECT cut off so has no effect to speak of.
 The database runs each statement atomically, enforces the primary key and the unique email, and reports an error
 only for a statement without effect; nothing else is assumed of it.
 */
module Users {
  import opened Clock
  import opened Problems
  import opened Runs
  import opened Text
  import opened Wrappers

  type RequestId = nat
  type Uuid = string

  datatype User = User(id: Uuid, name: string, email: string, createdAt: Time, updatedAt: Time)

  // What the router hands to a handler; the last two stand for what an extractor rejected.
  datatype Request =
    | Create(name: string, email: string)
    | List
    | GetUser(id: Uuid)
    | UnreadableBody(rejection: string)
    | UnreadablePath(rejection: string)

  datatype Statement = Insert(id: Uuid, name: string, email: string) | SelectAll | SelectById(id: Uuid)

  datatype Answer = Created(user: User) | Listed(users: seq<User>) | Found(user: User) | Refused(error: AppError)
  {
    // The code of the response; for a refusal the one `Problems.ErrorResponseAgrees` proves of it.
    ghost function Status(): nat {
      match this
      case Created(_) => 201
      case Listed(_) => 200
      case Found(_) => 200
      case Refused(error) => PromisedStatus(error)
    }
  }

  datatype Phase =
    | Acquiring(statement: Statement)   // waiting for a connection
    | Sent(statement: Statement)        // the statement is on its way and has not taken effect
    | Executed(answer: Answer)          // it has, and the answer is on its way
    | Answered(answer: Answer)
    | Dropped
  {
    predicate Finished() {
      Answered? || Dropped?
    }

    predicate Querying() {
      Acquiring? || Sent?
    }
  }

  // `orphans` holds the inserts whose request has ended before they took effect.
  datatype State = State(table: seq<User>, phases: map<RequestId, Phase>, orphans: map<RequestId, Statement>)

  datatype Event =
    | Begin(r: RequestId, request: Request, newId: Uuid)
    | Send(r: RequestId)
    | RunInsert(r: RequestId, now: Time, violation: DbError)
    | RunSelectAll(r: RequestId, rows: seq<User>)
    | RunSelectById(r: RequestId)
    | RunOrphan(r: RequestId, now: Time, violation: DbError)
    | Fail(r: RequestId, err: SqlxError)
    | Deliver(r: RequestId)
    | Drop(r: RequestId)
  {
    predicate RunsStatement() {
      RunInsert? || RunSelectAll? || RunSelectById? || RunOrphan?
    }
  }

  /* ----- the handlers ----- */

  const EMPTY_NAME := "Field 'name' cannot be empty or contain only whitespace"
  const BAD_EMAIL := "Field 'email' must contain a valid email address"

  const BAD_BODY := "Failed to parse request JSON: "
  const BAD_PATH := "Failed to parse URL path parameter: "

  // The prefix of each handler up to its query: the statement to run, or an immediate refusal.
  function Validate(request: Request, newId: Uuid): Result<Statement, AppError> {
    match request
    case Create(name, email) =>
      var trimmed := Trim(name);
      if trimmed == "" then Failure(BadRequestError(EMPTY_NAME))
      else if '@' !in email then Failure(BadRequestError(BAD_EMAIL))
      else Success(Insert(newId, trimmed, email))
    case List => Success(SelectAll)
    case GetUser(id) => Success(SelectById(id))
    case UnreadableBody(rejection) => Failure(BadRequestError(BAD_BODY + rejection))
    case UnreadablePath(rejection) => Failure(BadRequestError(BAD_PATH + rejection))
  }

  predicate Taken(table: seq<User>, id: Uuid, email: string) {
    exists k :: 0 <= k < |table| && (table[k].id == id || table[k].email == email)
  }

  function FindById(table: seq<User>, id: Uuid): Option<User> {
    if table == [] then None
    else if table[0].id == id then Some(table[0])
    else FindById(table[1..], id)
  }

  function NotFoundDetail(id: Uuid): string {
    "User with id '" + id + "' was not found"
  }

  // The statement of `r` that has not taken effect.
  function StatementOf(s: State, r: RequestId): Option<Statement> {
    if r in s.phases && s.phases[r].Querying() then Some(s.phases[r].statement)
    else if r in s.orphans then Some(s.orphans[r])
    else None
  }

  predicate Enabled(s: State, e: Event) {
    if e.Begin? then e.r !in s.phases
    else
      && e.r in s.phases
      && var phase := s.phases[e.r];
         match e
         case Send(_) => phase.Acquiring?
         // The server reports a violated constraint as one.
         case RunInsert(_, _, violation) =>
           phase.Sent? && phase.statement.Insert? && violation.isUniqueViolation
         // SELECT without ORDER BY: the rows in any order.
         case RunSelectAll(_, rows) =>
           phase.Sent? && phase.statement.SelectAll? && multiset(rows) == multiset(s.table)
         case RunSelectById(_) => phase.Sent? && phase.statement.SelectById?
         case RunOrphan(r, _, violation) =>
           phase.Finished() && r in s.orphans && s.orphans[r].Insert? && violation.isUniqueViolation
         // The server reports an error only for a statement that has had no effect.
         case Fail(_, err) => !phase.Finished() && (err.Server? ==> phase.Querying())
         case Deliver(_) => phase.Executed?
         case Drop(_) => !phase.Finished()
  }

  // The row a successful insert adds.
  function NewRow(statement: Statement, now: Time): User
    requires statement.Insert?
  {
    User(statement.id, statement.name, statement.email, now, now)
  }

  predicate Commits(s: State, e: Event) {
    && (e.RunInsert? || e.RunOrphan?)
    && Enabled(s, e)
    && var q := StatementOf(s, e.r).value;
       !Taken(s.table, q.id, q.email)
  }

  // What the database answers to the statement that takes effect; for an orphan, to nobody.
  function Outcome(s: State, e: Event): Answer
    requires Enabled(s, e) && e.RunsStatement()
  {
    if e.RunSelectAll? then Listed(e.rows)
    else if e.RunSelectById? then
      var id := s.phases[e.r].statement.id;
      var found := FindById(s.table, id);
      if found.Some? then Found(found.value) else Refused(NotFoundError(NotFoundDetail(id)))
    else if Commits(s, e) then Created(NewRow(StatementOf(s, e.r).value, e.now))
    else Refused(Database(Server(e.violation)))
  }

  function NextTable(s: State, e: Event): seq<User>
    requires Enabled(s, e)
  {
    if Commits(s, e) then s.table + [NewRow(StatementOf(s, e.r).value, e.now)] else s.table
  }

  function NextPhase(s: State, e: Event): Phase
    requires Enabled(s, e)
  {
    match e
    case Begin(_, request, newId) =>
      var validated := Validate(request, newId);
      if validated.Success? then Acquiring(validated.value) else Answered(Refused(validated.error))
    case Send(r) => Sent(s.phases[r].statement)
    case RunOrphan(r, _, _) => s.phases[r]
    case Fail(_, err) => Answered(Refused(Database(err)))
    case Deliver(r) => Answered(s.phases[r].answer)
    case Drop(_) => Dropped
    case _ => Executed(Outcome(s, e))
  }

  // The request is cut off while its insert is on its way: dropped, or failed by anything but the server's own error.
  predicate CutsOff(s: State, e: Event) {
    && (e.Drop? || (e.Fail? && e.err.Other?))
    && e.r in s.phases && s.phases[e.r].Sent? && s.phases[e.r].statement.Insert?
  }

  function NextOrphans(s: State, e: Event): map<RequestId, Statement>
    requires Enabled(s, e)
  {
    if CutsOff(s, e) then s.orphans[e.r := s.phases[e.r].statement]
    else if e.RunOrphan? then s.orphans - {e.r}
    else s.orphans
  }

  function Apply(s: State, e: Event): State
    requires Enabled(s, e)
  {
    State(NextTable(s, e), s.phases[e.r := NextPhase(s, e)], NextOrphans(s, e))
  }

  /* ----- runs ----- */

  type Trace = Run<State, Event>

  ghost predicate Next(s: State, e: Event, t: State) {
    Enabled(s, e) && t == Apply(s, e)
  }

  // No request has begun and the table holds what the migrations and earlier processes left.
  ghost predicate Start(s: State) {
    s.phases == map[] && s.orphans == map[] && TableInv(s.table)
  }

  ghost predicate IsRun(run: Trace) {
    |run.states| > 0 && From(Next, run, run.states[0]) && Start(run.states[0])
  }

  /* ----- what every state keeps ----- */

  predicate RowValid(u: User) {
    u.name != "" && Trimmed(u.name) && '@' in u.email
  }

  ghost predicate TableInv(table: seq<User>) {
    && (forall i, j :: 0 <= i < j < |table| ==> table[i].id != table[j].id && table[i].email != table[j].email)
    && (forall i :: 0 <= i < |table| ==> RowValid(table[i]))
  }

  predicate StatementValid(q: Statement) {
    q.Insert? ==> q.name != "" && Trimmed(q.name) && '@' in q.email
  }

  ghost predicate Inv(s: State) {
    && TableInv(s.table)
    && (forall r :: StatementOf(s, r).Some? ==> StatementValid(StatementOf(s, r).value))
    && (forall r :: r in s.orphans ==> r in s.phases && s.phases[r].Finished() && s.orphans[r].Insert?)
  }

  // The statement each readable request asks for, and what each unacceptable one is told.
  ghost predicate AsksFor(request: Request, newId: Uuid, q: Statement) {
    match request
    case Create(name, email) =>
      exists left, trimmed, right ::
        && name == left + trimmed + right && Blank(left) && Blank(right) && trimmed != "" && Trimmed(trimmed)
        && '@' in email && q == Insert(newId, trimmed, email)
    case List => q == SelectAll
    case GetUser(id) => q == SelectById(id)
    case UnreadableBody(_) => false
    case UnreadablePath(_) => false
  }

  ghost predicate IsTold(request: Request, detail: string) {
    match request
    case Create(name, email) =>
      if Blank(name) then detail == "Field 'name' cannot be empty or contain only whitespace"
      else '@' !in email && detail == "Field 'email' must contain a valid email address"
    case List => false
    case GetUser(_) => false
    case UnreadableBody(rejection) => detail == "Failed to parse request JSON: " + rejection
    case UnreadablePath(rejection) => detail == "Failed to parse URL path parameter: " + rejection
  }

  lemma CreateIsTrimmed(name: string, email: string, newId: Uuid, q: Statement)
    ensures AsksFor(Create(name, email), newId, q) <==>
            !Blank(name) && '@' in email && q == Insert(newId, Trim(name), email)
    ensures Blank(name) <==> Trim(name) == ""
  {
    var left, right := TrimSplits(name);
    if Blank(name) {
      assert name == name + "" + "";
      TrimPadded(name, "", "");
    }
    forall l, trimmed, r
      | name == l + trimmed + r && Blank(l) && Blank(r) && trimmed != "" && Trimmed(trimmed)
      ensures trimmed == Trim(name) && !Blank(name)
    {
      TrimPadded(l, trimmed, r);
      assert name[|l|] == trimmed[0];
    }
  }

  /** Validation accepts exactly the statement a request asks for, and refuses with what it is to be told. */
  lemma ValidatesExactly(request: Request, newId: Uuid, q: Statement, detail: string)
    ensures Validate(request, newId) == Success(q) <==> AsksFor(request, newId, q)
    ensures Validate(request, newId) == Failure(BadRequestError(detail)) <==> IsTold(request, detail)
  {
    if request.Create? {
      CreateIsTrimmed(request.name, request.email, newId, q);
    }
  }

  lemma ValidatedStatement(request: Request, newId: Uuid)
    requires Validate(request, newId).Success?
    ensures StatementValid(Validate(request, newId).value)
  {
    if request.Create? {
      var left, right := TrimSplits(request.name);
    }
  }

  lemma TableStep(s: State, e: Event)
    requires Inv(s) && Enabled(s, e)
    ensures TableInv(NextTable(s, e))
  {
    if Commits(s, e) {
      assert StatementValid(StatementOf(s, e.r).value);
    }
  }

  // A statement that is still to run was there before, unless its request begins in this step.
  lemma StatementStep(s: State, e: Event, r: RequestId)
    requires Inv(s) && Enabled(s, e) && StatementOf(Apply(s, e), r).Some?
    ensures StatementOf(s, r) == StatementOf(Apply(s, e), r)
         || (e.Begin? && e.r == r && Validate(e.request, e.newId) == Success(StatementOf(Apply(s, e), r).value))
  {
  }

  lemma InvStep(s: State, e: Event)
    requires Inv(s) && Enabled(s, e)
    ensures Inv(Apply(s, e))
  {
    TableStep(s, e);
    forall r | StatementOf(Apply(s, e), r).Some? ensures StatementValid(StatementOf(Apply(s, e), r).value) {
      StatementStep(s, e, r);
      if StatementOf(s, r) != StatementOf(Apply(s, e), r) {
        ValidatedStatement(e.request, e.newId);
      }
    }
  }

  lemma {:induction false} InvHolds(run: Trace, i: nat)
    requires IsRun(run) && i < |run.states|
    ensures Inv(run.states[i])
  {
    if i > 0 {
      InvHolds(run, i - 1);
      assert StepAt(Next, run, i - 1);
      InvStep(run.states[i - 1], run.events[i - 1]);
    }
  }

  lemma {:induction false} TableGrows(run: Trace, i: nat, j: nat)
    requires IsRun(run) && i <= j < |run.states|
    ensures run.states[i].table <= run.states[j].table
  {
    if i < j {
      TableGrows(run, i, j - 1);
      assert StepAt(Next, run, j - 1);
    }
  }

  /**
   In every reachable state ids and emails are distinct, names are trimmed and non-empty, emails hold an at sign,
   and the rows of every earlier state are still there, unchanged and in place.
   */
  lemma TableIsSound(run: Trace, i: nat, j: nat)
    requires IsRun(run) && i <= j < |run.states|
    ensures TableInv(run.states[j].table) && run.states[i].table <= run.states[j].table
  {
    InvHolds(run, j);
    TableGrows(run, i, j);
  }

  lemma {:induction false} FindByIdFinds(table: seq<User>, id: Uuid)
    ensures FindById(table, id).None? <==> forall u :: u in table ==> u.id != id
    ensures FindById(table, id).Some? ==> FindById(table, id).value in table && FindById(table, id).value.id == id
  {
    if table != [] {
      FindByIdFinds(table[1..], id);
      assert forall u :: u in table <==> u == table[0] || u in table[1..];
    }
  }
}
