/** The shared user store object, and the handlers when nobody interferes. */
module UserStore {
  import opened Clock
  import opened Problems
  import opened Text
  import opened Users

  class Store {
    var table: seq<User>
    var phases: map<RequestId, Phase>
    var orphans: map<RequestId, Statement>

    constructor (rows: seq<User>)
      requires TableInv(rows)
      ensures table == rows && Start(View())
    {
      table := rows;
      phases := map[];
      orphans := map[];
    }

    // The state this object stands for.
    function View(): State
      reads this
    {
      State(table, phases, orphans)
    }

    // The handler up to its wait for a connection.
    method BeginRequest(r: RequestId, request: Request, newId: Uuid)
      requires Enabled(View(), Begin(r, request, newId))
      modifies this
      ensures View() == Apply(old(View()), Begin(r, request, newId))
    {
      match request {
        case Create(name, email) =>
          var trimmed := Trim(name);
          if trimmed == "" {
            phases := phases[r := Answered(Refused(BadRequestError(EMPTY_NAME)))];
            return;
          }
          if '@' !in email {
            phases := phases[r := Answered(Refused(BadRequestError(BAD_EMAIL)))];
            return;
          }
          phases := phases[r := Acquiring(Insert(newId, trimmed, email))];
        case List =>
          phases := phases[r := Acquiring(SelectAll)];
        case GetUser(id) =>
          phases := phases[r := Acquiring(SelectById(id))];
        case UnreadableBody(rejection) =>
          phases := phases[r := Answered(Refused(BadRequestError(BAD_BODY + rejection)))];
        case UnreadablePath(rejection) =>
          phases := phases[r := Answered(Refused(BadRequestError(BAD_PATH + rejection)))];
      }
    }

    method SendStatement(r: RequestId)
      requires Enabled(View(), Send(r))
      modifies this`phases
      ensures View() == Apply(old(View()), Send(r))
    {
      phases := phases[r := Sent(phases[r].statement)];
    }

    method ExecuteInsert(r: RequestId, now: Time, violation: DbError)
      requires Enabled(View(), RunInsert(r, now, violation))
      modifies this
      ensures View() == Apply(old(View()), RunInsert(r, now, violation))
    {
      var q := phases[r].statement;
      if Taken(table, q.id, q.email) {
        phases := phases[r := Executed(Refused(Database(Server(violation))))];
      } else {
        var user := User(q.id, q.name, q.email, now, now);
        table := table + [user];
        phases := phases[r := Executed(Created(user))];
      }
    }

    method ExecuteSelectAll(r: RequestId, rows: seq<User>)
      requires Enabled(View(), RunSelectAll(r, rows))
      modifies this
      ensures View() == Apply(old(View()), RunSelectAll(r, rows))
    {
      phases := phases[r := Executed(Listed(rows))];
    }

    method ExecuteSelectById(r: RequestId)
      requires Enabled(View(), RunSelectById(r))
      modifies this
      ensures View() == Apply(old(View()), RunSelectById(r))
    {
      var id := phases[r].statement.id;
      match FindById(table, id) {
        case Some(user) => phases := phases[r := Executed(Found(user))];
        case None => phases := phases[r := Executed(Refused(NotFoundError(NotFoundDetail(id))))];
      }
    }

    // The database runs an insert whose request has ended.
    method ExecuteOrphan(r: RequestId, now: Time, violation: DbError)
      requires Enabled(View(), RunOrphan(r, now, violation))
      modifies this
      ensures View() == Apply(old(View()), RunOrphan(r, now, violation))
    {
      var q := StatementOf(View(), r).value;
      if !Taken(table, q.id, q.email) {
        table := table + [User(q.id, q.name, q.email, now, now)];
      }
      orphans := orphans - {r};
    }

    // An insert that has been sent and has not taken effect stays with the database.
    method LeaveOrphan(r: RequestId)
      requires r in phases
      modifies this`orphans
      ensures orphans == if phases[r].Sent? && phases[r].statement.Insert?
                         then old(orphans)[r := phases[r].statement] else old(orphans)
    {
      if phases[r].Sent? && phases[r].statement.Insert? {
        orphans := orphans[r := phases[r].statement];
      }
    }

    method FailQuery(r: RequestId, err: SqlxError)
      requires Enabled(View(), Fail(r, err))
      modifies this
      ensures View() == Apply(old(View()), Fail(r, err))
    {
      if err.Other? {
        LeaveOrphan(r);
      }
      phases := phases[r := Answered(Refused(Database(err)))];
    }

    method DeliverAnswer(r: RequestId) returns (answer: Answer)
      requires Enabled(View(), Deliver(r))
      modifies this
      ensures View() == Apply(old(View()), Deliver(r)) && phases[r] == Answered(answer)
    {
      answer := phases[r].answer;
      phases := phases[r := Answered(answer)];
    }

    method DropRequest(r: RequestId)
      requires Enabled(View(), Drop(r))
      modifies this
      ensures View() == Apply(old(View()), Drop(r))
    {
      LeaveOrphan(r);
      phases := phases[r := Dropped];
    }

    /** `create_user` with nobody in the way: 400, 409 or 201, decided in that order, and the table each leaves. */
    method CreateUser(r: RequestId, name: string, email: string, newId: Uuid, now: Time, violation: DbError)
      returns (answer: Answer)
      requires r !in phases && violation.isUniqueViolation
      modifies this
      ensures phases == old(phases)[r := Answered(answer)] && orphans == old(orphans)
      ensures if Trim(name) == "" then answer == Refused(BadRequestError(EMPTY_NAME)) && table == old(table)
              else if '@' !in email then answer == Refused(BadRequestError(BAD_EMAIL)) && table == old(table)
              else if exists u :: u in old(table) && (u.id == newId || u.email == email)
              then answer.Status() == 409 && table == old(table)
              else answer == Created(User(newId, Trim(name), email, now, now)) && table == old(table) + [answer.user]
    {
      BeginRequest(r, Create(name, email), newId);
      if phases[r].Answered? {
        return phases[r].answer;
      }
      assert phases == old(phases)[r := Acquiring(Insert(newId, Trim(name), email))];
      answer := InsertUser(r, now, violation);
    }

    // The INSERT of a validated create, with nobody in the way.
    method InsertUser(r: RequestId, now: Time, violation: DbError) returns (answer: Answer)
      requires r in phases && phases[r].Acquiring? && phases[r].statement.Insert? && violation.isUniqueViolation
      modifies this
      ensures phases == old(phases)[r := Answered(answer)] && orphans == old(orphans)
      ensures var q := old(phases)[r].statement;
              if Taken(old(table), q.id, q.email) then answer.Status() == 409 && table == old(table)
              else answer == Created(NewRow(q, now)) && table == old(table) + [answer.user]
    {
      SendStatement(r);
      ExecuteInsert(r, now, violation);
      answer := DeliverAnswer(r);
    }

    /** `list_users`, with the rows the database chose to return. */
    method ListUsers(r: RequestId, rows: seq<User>) returns (answer: Answer)
      requires r !in phases && multiset(rows) == multiset(table)
      modifies this
      ensures phases == old(phases)[r := Answered(answer)] && table == old(table) && orphans == old(orphans)
      ensures answer.Listed? && multiset(answer.users) == multiset(table)
    {
      BeginRequest(r, List, "");
      SendStatement(r);
      ExecuteSelectAll(r, rows);
      answer := DeliverAnswer(r);
    }

    /** `get_user`: the row with that id, or 404 exactly when there is none. */
    method GetUserById(r: RequestId, id: Uuid) returns (answer: Answer)
      requires r !in phases
      modifies this
      ensures phases == old(phases)[r := Answered(answer)] && table == old(table) && orphans == old(orphans)
      ensures answer.Found? ==> answer.user in table && answer.user.id == id
      ensures !answer.Found? ==>
                && answer == Refused(NotFoundError("User with id '" + id + "' was not found"))
                && forall u :: u in table ==> u.id != id
    {
      FindByIdFinds(table, id);
      BeginRequest(r, GetUser(id), "");
      SendStatement(r);
      ExecuteSelectById(r);
      answer := DeliverAnswer(r);
    }
  }
}
