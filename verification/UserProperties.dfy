/** What every interleaving of the user requests guarantees. */
module UserProperties {
  import opened Clock
  import opened Problems
  import opened Runs
  import opened Text
  import opened Users
  import opened Wrappers

  /* ----- the life of one request ----- */

  // `r` has begun and has no statement left to run.
  predicate Spent(s: State, r: RequestId) {
    r in s.phases && StatementOf(s, r).None?
  }

  lemma KnownStep(s: State, e: Event, r: RequestId)
    requires Enabled(s, e) && r in s.phases
    ensures r in Apply(s, e).phases
    ensures Spent(s, r) ==> Spent(Apply(s, e), r)
    ensures s.phases[r].Finished() ==> Apply(s, e).phases[r] == s.phases[r]
  {
  }

  lemma {:induction false} KnownStays(run: Trace, i: nat, j: nat, r: RequestId)
    requires IsRun(run) && i <= j < |run.states| && r in run.states[i].phases
    ensures r in run.states[j].phases
    ensures Spent(run.states[i], r) ==> Spent(run.states[j], r)
    ensures run.states[i].phases[r].Finished() ==> run.states[j].phases[r] == run.states[i].phases[r]
  {
    if i < j {
      KnownStays(run, i, j - 1, r);
      assert StepAt(Next, run, j - 1);
      KnownStep(run.states[j - 1], run.events[j - 1], r);
    }
  }

  // A request takes its first step when it begins.
  lemma BeginIsFirst(run: Trace, b: nat, k: nat)
    requires IsRun(run) && b < |run.events| && k < |run.events|
    requires run.events[b].Begin? && run.events[k].r == run.events[b].r
    ensures b <= k && (k != b ==> !run.events[k].Begin?)
  {
    var r := run.events[b].r;
    assert StepAt(Next, run, b);
    assert StepAt(Next, run, k);
    if k < b {
      KnownStays(run, k + 1, b, r);
    } else if b < k {
      KnownStays(run, b + 1, k, r);
    }
  }

  lemma {:induction false} BeginOf(run: Trace, i: nat, r: RequestId) returns (b: nat)
    requires IsRun(run) && i < |run.states| && r in run.states[i].phases
    ensures b < i && run.events[b].Begin? && run.events[b].r == r
  {
    assert StepAt(Next, run, i - 1);
    if r in run.states[i - 1].phases {
      b := BeginOf(run, i - 1, r);
    } else {
      b := i - 1;
    }
  }

  // Until its statement takes effect, it is the one the request was validated into, also when orphaned.
  lemma {:induction false} StatementFromRequest(run: Trace, b: nat, k: nat)
    requires IsRun(run) && b < k < |run.states| && run.events[b].Begin?
    requires StatementOf(run.states[k], run.events[b].r).Some?
    ensures Validate(run.events[b].request, run.events[b].newId)
         == Success(StatementOf(run.states[k], run.events[b].r).value)
  {
    assert StepAt(Next, run, k - 1);
    InvHolds(run, k - 1);
    StatementStep(run.states[k - 1], run.events[k - 1], run.events[b].r);
    if b + 1 < k {
      if run.events[k - 1].r == run.events[b].r {
        BeginIsFirst(run, b, k - 1);
      }
      StatementFromRequest(run, b, k - 1);
    }
  }

  // The step at which `r` got the answer `a`: its statement, its validation, or the failure of its query.
  ghost predicate Origin(run: Trace, k: nat, r: RequestId, a: Answer)
    requires IsRun(run)
  {
    && k < |run.events|
    && run.events[k].r == r
    && r in run.states[k + 1].phases
    && match run.events[k]
       case Begin(_, _, _) => run.states[k + 1].phases[r] == Answered(a)
       case Fail(_, err) => a == Refused(Database(err))
       case Send(_) => false
       case Deliver(_) => false
       case Drop(_) => false
       case RunOrphan(_, _, _) => false
       case _ => run.states[k + 1].phases[r] == Executed(a)
  }

  lemma {:induction false} AnswerOrigin(run: Trace, i: nat, r: RequestId, a: Answer) returns (k: nat)
    requires IsRun(run) && i < |run.states| && r in run.states[i].phases
    requires run.states[i].phases[r] in {Executed(a), Answered(a)}
    ensures k < i && Origin(run, k, r, a)
  {
    var s, e := run.states[i - 1], run.events[i - 1];
    assert StepAt(Next, run, i - 1);
    if e.r != r || e.Send? || e.Deliver? || e.RunOrphan? {
      k := AnswerOrigin(run, i - 1, r, a);
    } else {
      k := i - 1;
    }
  }

  lemma EffectSpends(run: Trace, k: nat)
    requires IsRun(run) && k < |run.events| && run.events[k].RunsStatement()
    ensures StatementOf(run.states[k], run.events[k].r).Some? && Spent(run.states[k + 1], run.events[k].r)
  {
    assert StepAt(Next, run, k);
    InvHolds(run, k);
  }

  // A request has at most one statement, and it takes effect at most once, before or after the request's end.
  lemma OneEffect(run: Trace, k: nat, l: nat)
    requires IsRun(run) && k < |run.events| && l < |run.events|
    requires run.events[k].RunsStatement() && run.events[l].RunsStatement() && run.events[k].r == run.events[l].r
    ensures k == l
  {
    EffectSpends(run, k);
    EffectSpends(run, l);
    if k < l {
      KnownStays(run, k + 1, l, run.events[k].r);
    } else if l < k {
      KnownStays(run, l + 1, k, run.events[k].r);
    }
  }

  /* ----- linearizability ----- */

  function Rows(table: seq<User>): set<User> {
    set u | u in table
  }

  /**
   What a sequential server holding a set of users may answer, and the set it then holds. This is stated without
   tables, phases or events.
   */
  ghost predicate Legal(before: set<User>, q: Statement, a: Answer, after: set<User>) {
    match q
    case Insert(id, name, email) =>
      if exists u :: u in before && (u.id == id || u.email == email)
      then after == before && a.Refused? && a.Status() == 409
      else
        && a.Created?
        && a.user.id == id && a.user.name == name && a.user.email == email && a.user.createdAt == a.user.updatedAt
        && after == before + {a.user}
    case SelectAll =>
      after == before && a.Listed? && Rows(a.users) == before && |a.users| == |before|
    case SelectById(id) =>
      && after == before
      && (a.Found? ==> a.user in before && a.user.id == id)
      && (!a.Found? ==>
            && a == Refused(NotFoundError("User with id '" + id + "' was not found"))
            && forall u :: u in before ==> u.id != id)
  }

  datatype Operation = Operation(r: RequestId, statement: Statement, answer: Answer)

  // What a sequential execution of the operations leaves.
  ghost function Replay(initial: set<User>, h: seq<Operation>): set<User> {
    if h == [] then initial
    else
      var before := Replay(initial, h[..|h| - 1]);
      var a := h[|h| - 1].answer;
      if a.Created? then before + {a.user} else before
  }

  ghost predicate LegalHistory(initial: set<User>, h: seq<Operation>) {
    h != [] ==>
      var past, last := h[..|h| - 1], h[|h| - 1];
      LegalHistory(initial, past)
      && Legal(Replay(initial, past), last.statement, last.answer, Replay(initial, h))
  }

  // The operation whose statement takes effect at events[k].
  ghost function OperationAt(run: Trace, k: nat): Operation
    requires IsRun(run) && k < |run.events| && run.events[k].RunsStatement()
  {
    assert StepAt(Next, run, k);
    var s, e := run.states[k], run.events[k];
    Operation(e.r, StatementOf(s, e.r).value, Outcome(s, e))
  }

  // The statements of the run in the order in which they took effect, with what the database answered.
  ghost function History(run: Trace, i: nat): seq<Operation>
    requires IsRun(run) && i <= |run.events|
  {
    if i == 0 then []
    else History(run, i - 1) + if run.events[i - 1].RunsStatement() then [OperationAt(run, i - 1)] else []
  }

  lemma {:induction false} DistinctRows(table: seq<User>)
    requires TableInv(table)
    ensures |Rows(table)| == |table|
  {
    if table != [] {
      var init, last := table[..|table| - 1], table[|table| - 1];
      DistinctRows(init);
      assert table == init + [last];
      assert last !in init;
      assert Rows(table) == Rows(init) + {last};
    }
  }

  lemma ListedRows(rows: seq<User>, table: seq<User>)
    requires multiset(rows) == multiset(table)
    ensures Rows(rows) == Rows(table) && |rows| == |table|
  {
    assert |rows| == |multiset(rows)| && |table| == |multiset(table)|;
    forall u ensures u in rows <==> u in table {
      assert u in rows <==> u in multiset(rows);
      assert u in table <==> u in multiset(table);
    }
  }

  lemma InsertIsLegal(s: State, e: Event)
    requires Inv(s) && Enabled(s, e) && (e.RunInsert? || e.RunOrphan?)
    ensures Legal(Rows(s.table), StatementOf(s, e.r).value, Outcome(s, e), Rows(NextTable(s, e)))
  {
    var q := StatementOf(s, e.r).value;
    if Commits(s, e) {
      var u := NewRow(q, e.now);
      assert Rows(s.table + [u]) == Rows(s.table) + {u};
      forall v | v in Rows(s.table) ensures v.id != u.id && v.email != u.email {
        var k :| 0 <= k < |s.table| && s.table[k] == v;
      }
    } else {
      var k :| 0 <= k < |s.table| && (s.table[k].id == q.id || s.table[k].email == q.email);
      assert s.table[k] in Rows(s.table);
    }
  }

  lemma EffectIsLegal(s: State, e: Event)
    requires Inv(s) && Enabled(s, e) && e.RunsStatement()
    ensures Legal(Rows(s.table), StatementOf(s, e.r).value, Outcome(s, e), Rows(NextTable(s, e)))
  {
    match e
    case RunSelectAll(r, rows) =>
      ListedRows(rows, s.table);
      DistinctRows(s.table);
    case RunSelectById(r) =>
      FindByIdFinds(s.table, s.phases[r].statement.id);
    case _ =>
      InsertIsLegal(s, e);
  }

  lemma AppendLegal(initial: set<User>, h: seq<Operation>, op: Operation, after: set<User>)
    requires LegalHistory(initial, h) && Legal(Replay(initial, h), op.statement, op.answer, after)
    ensures LegalHistory(initial, h + [op]) && Replay(initial, h + [op]) == after
  {
  }

  /**
   Linearizability, first part: the answers given at the moments the statements took effect form a legal
   sequential history, which leaves exactly the rows the table holds.
   */
  lemma {:induction false} HistoryIsLegal(run: Trace, i: nat)
    requires IsRun(run) && i <= |run.events|
    ensures LegalHistory(Rows(run.states[0].table), History(run, i))
    ensures Replay(Rows(run.states[0].table), History(run, i)) == Rows(run.states[i].table)
  {
    if i > 0 {
      HistoryIsLegal(run, i - 1);
      if run.events[i - 1].RunsStatement() {
        OperationIsLegal(run, i - 1);
        AppendLegal(Rows(run.states[0].table), History(run, i - 1), OperationAt(run, i - 1), Rows(run.states[i].table));
      } else {
        assert StepAt(Next, run, i - 1);
        assert History(run, i) == History(run, i - 1);
      }
    }
  }

  lemma OperationIsLegal(run: Trace, k: nat)
    requires IsRun(run) && k < |run.events| && run.events[k].RunsStatement()
    ensures var op := OperationAt(run, k);
            Legal(Rows(run.states[k].table), op.statement, op.answer, Rows(run.states[k + 1].table))
  {
    InvHolds(run, k);
    assert StepAt(Next, run, k);
    EffectIsLegal(run.states[k], run.events[k]);
  }

  lemma {:induction false} HistoryGrows(run: Trace, i: nat, j: nat)
    requires IsRun(run) && i <= j <= |run.events|
    ensures History(run, i) <= History(run, j)
  {
    if i < j {
      HistoryGrows(run, i, j - 1);
    }
  }

  // The place in the history of the statement that takes effect at events[k].
  lemma EffectIsRecorded(run: Trace, k: nat, i: nat)
    requires IsRun(run) && k < i <= |run.events| && run.events[k].RunsStatement()
    ensures |History(run, k)| < |History(run, i)| && History(run, i)[|History(run, k)|] == OperationAt(run, k)
  {
    HistoryGrows(run, k + 1, i);
  }

  lemma {:induction false} RecordedEffect(run: Trace, i: nat, p: nat) returns (k: nat)
    requires IsRun(run) && i <= |run.events| && p < |History(run, i)|
    ensures k < i && run.events[k].RunsStatement() && p == |History(run, k)|
    ensures run.events[k].r == History(run, i)[p].r
  {
    if p < |History(run, i - 1)| {
      HistoryGrows(run, i - 1, i);
      k := RecordedEffect(run, i - 1, p);
    } else {
      k := i - 1;
    }
  }

  // An answer that was delivered was given by the request's statement when it took effect.
  lemma DeliveredEffect(run: Trace, d: nat, r: RequestId) returns (k: nat)
    requires IsRun(run) && d < |run.events| && run.events[d] == Deliver(r)
    ensures k < d && run.events[k].RunsStatement() && run.events[k].r == r
    ensures r in run.states[d + 1].phases && run.states[d + 1].phases[r] == Answered(OperationAt(run, k).answer)
  {
    assert StepAt(Next, run, d);
    k := AnswerOrigin(run, d, r, run.states[d].phases[r].answer);
    assert StepAt(Next, run, k);
    if !run.events[k].RunsStatement() {
      KnownStays(run, k + 1, d, r);
      assert false;
    }
  }

  /**
   Second part: for every answer that was delivered the history holds one operation of its request, which is what
   the request asked for and was answered with that answer.
   */
  lemma DeliveredIsRecorded(run: Trace, i: nat, d: nat, r: RequestId, a: Answer) returns (b: nat, p: nat)
    requires IsRun(run) && d < i <= |run.events| && run.events[d] == Deliver(r)
    requires r in run.states[i].phases && run.states[i].phases[r] == Answered(a)
    ensures b < d && run.events[b].Begin? && run.events[b].r == r
    ensures p < |History(run, i)| && History(run, i)[p].r == r && History(run, i)[p].answer == a
    ensures Validate(run.events[b].request, run.events[b].newId) == Success(History(run, i)[p].statement)
    ensures forall q :: 0 <= q < |History(run, i)| && History(run, i)[q].r == r ==> q == p
  {
    var k := DeliveredEffect(run, d, r);
    KnownStays(run, d + 1, i, r);
    EffectIsRecorded(run, k, i);
    EffectSpends(run, k);
    assert StepAt(Next, run, k);
    b := BeginOf(run, k, r);
    StatementFromRequest(run, b, k);
    p := |History(run, k)|;
    forall q | 0 <= q < |History(run, i)| && History(run, i)[q].r == r ensures q == p {
      var l := RecordedEffect(run, i, q);
      OneEffect(run, k, l);
    }
  }

  // The request that acts in events[d] is answered, or dropped, by it.
  ghost predicate Ends(run: Trace, d: nat)
    requires IsRun(run) && d < |run.events|
  {
    && (run.events[d].r in run.states[d].phases ==> !run.states[d].phases[run.events[d].r].Finished())
    && run.events[d].r in run.states[d + 1].phases && run.states[d + 1].phases[run.events[d].r].Finished()
  }

  // What a request leaves behind when it ends: an orphan exactly when it is cut off while its INSERT is on its way.
  lemma EndLeavesOrphan(run: Trace, d: nat)
    requires IsRun(run) && d < |run.events| && Ends(run, d)
    ensures CutsOff(run.states[d], run.events[d]) <==> run.events[d].r in run.states[d + 1].orphans
    ensures CutsOff(run.states[d], run.events[d]) <==> !Spent(run.states[d + 1], run.events[d].r)
  {
    assert StepAt(Next, run, d);
    InvHolds(run, d);
  }

  lemma NoEffectAfterEnd(run: Trace, d: nat, k: nat)
    requires IsRun(run) && d < |run.events| && k < |run.events|
    requires Ends(run, d) && !CutsOff(run.states[d], run.events[d])
    requires run.events[k].RunsStatement() && run.events[k].r == run.events[d].r
    ensures k <= d
  {
    EndLeavesOrphan(run, d);
    EffectSpends(run, k);
    if d < k {
      KnownStays(run, d + 1, k, run.events[d].r);
    }
  }

  /**
   Third part: a request that ended before another began comes before it in the history, unless it was cut off
   while its INSERT was on its way.
   */
  lemma HistoryRespectsRealTime(run: Trace, d: nat, b: nat, i: nat, p: nat, q: nat)
    requires IsRun(run) && d < b < i <= |run.events| && run.events[b].Begin?
    requires Ends(run, d) && !CutsOff(run.states[d], run.events[d])
    requires p < |History(run, i)| && History(run, i)[p].r == run.events[d].r
    requires q < |History(run, i)| && History(run, i)[q].r == run.events[b].r
    ensures p < q
  {
    var k := RecordedEffect(run, i, p);
    var l := RecordedEffect(run, i, q);
    NoEffectAfterEnd(run, d, k);
    BeginIsFirst(run, b, l);
    HistoryGrows(run, k + 1, l);
  }

  // The run goes on as `longer`, where a request that begins only then takes effect before `r` does.
  ghost predicate Overtakes(run: Trace, longer: Trace, r: RequestId, b: nat, p: nat, q: nat) {
    && IsRun(longer) && run.states <= longer.states && run.events <= longer.events
    && |run.events| <= b < |longer.events| && longer.events[b].Begin?
    && var h := History(longer, |longer.events|);
       p < |h| && h[p].r == r && q < |h| && h[q].r == longer.events[b].r && q < p
  }

  lemma {:induction false} FreshRequest(used: set<RequestId>) returns (r: RequestId)
    ensures forall x :: x in used ==> x < r
    decreases |used|
  {
    if used == {} {
      r := 0;
    } else {
      var x :| x in used;
      var above := FreshRequest(used - {x});
      r := if x < above then above else x + 1;
      forall y | y in used ensures y < r {
        assert y == x || y in used - {x};
      }
    }
  }

  // A list can always begin and take effect, whatever has been left behind.
  lemma ListGoesAhead(run: Trace) returns (longer: Trace, x: RequestId)
    requires IsRun(run)
    ensures IsRun(longer) && run.states <= longer.states
    ensures longer.events == run.events + [Begin(x, List, ""), Send(x), RunSelectAll(x, run.Last().table)]
    ensures forall r :: r in run.Last().phases ==>
              r != x && r in longer.Last().phases && longer.Last().phases[r] == run.Last().phases[r]
    ensures longer.Last().orphans == run.Last().orphans
  {
    var start, s := run.states[0], run.Last();
    x := FreshRequest(s.phases.Keys);
    var begin, list := Begin(x, List, ""), RunSelectAll(x, s.table);
    longer := Advance(Next, start, run, begin, Apply(s, begin));
    longer := Advance(Next, start, longer, Send(x), Apply(longer.Last(), Send(x)));
    longer := Advance(Next, start, longer, list, Apply(longer.Last(), list));
  }

  // A list that begins after the cut-off and does not see the row, and the insert that commits after it.
  lemma OrphanIsOvertaken(run: Trace, r: RequestId) returns (longer: Trace, b: nat, p: nat, q: nat)
    requires IsRun(run) && r in run.Last().orphans
    ensures Overtakes(run, longer, r, b, p, q)
  {
    InvHolds(run, |run.events|);
    var x: RequestId;
    b := |run.events|;
    longer, x := ListGoesAhead(run);
    var late := RunOrphan(r, 0, DbError(true, None, ""));
    longer := Advance(Next, run.states[0], longer, late, Apply(longer.Last(), late));
    EffectIsRecorded(longer, b + 2, b + 4);
    EffectIsRecorded(longer, b + 3, b + 4);
    q, p := |History(longer, b + 2)|, |History(longer, b + 3)|;
    assert longer.events[b] == Begin(x, List, "");
    assert longer.events[b + 2].RunsStatement() && longer.events[b + 3] == late;
  }

  /**
   The exact condition: a request that has just ended precedes, in every continuation, everything that begins
   later, if and only if it was not cut off while its INSERT was on its way.
   */
  lemma OvertakenExactlyWhenCutOff(run: Trace, d: nat)
    requires IsRun(run) && |run.events| == d + 1 && Ends(run, d)
    ensures CutsOff(run.states[d], run.events[d])
       <==> exists longer, b, p, q :: Overtakes(run, longer, run.events[d].r, b, p, q)
  {
    EndLeavesOrphan(run, d);
    var r := run.events[d].r;
    if CutsOff(run.states[d], run.events[d]) {
      var longer, b, p, q := OrphanIsOvertaken(run, r);
    } else {
      forall longer, b: nat, p: nat, q: nat ensures !Overtakes(run, longer, r, b, p, q) {
        if Overtakes(run, longer, r, b, p, q) {
          assert longer.events[d] == run.events[d];
          assert longer.states[d] == run.states[d] && longer.states[d + 1] == run.states[d + 1];
          HistoryRespectsRealTime(longer, d, b, |longer.events|, p, q);
        }
      }
    }
  }

  /**
   A run from the empty table in which a create is dropped, or fails by anything but the server's own report, a list
   that begins afterwards is answered with no users, and the row of the create is committed all the same.
   */
  lemma LateCommit(request: Request, newId: Uuid, failure: Option<string>, now: Time) returns (run: Trace)
    requires request.Create? && Validate(request, newId).Success?
    ensures IsRun(run) && run.states[0].table == []
    ensures var cut := if failure.None? then Drop(0) else Fail(0, Other(failure.value));
            run.events == [Begin(0, request, newId), Send(0), cut]
                          + [Begin(1, List, ""), Send(1), RunSelectAll(1, []), Deliver(1)]
                          + [RunOrphan(0, now, DbError(true, None, ""))]
    ensures run.Last().table == [NewRow(Validate(request, newId).value, now)]
    ensures run.Last().phases == map[0 := if failure.None? then Dropped
                                          else Answered(Refused(Database(Other(failure.value)))),
                                     1 := Answered(Listed([]))]
  {
    var q := Validate(request, newId).value;
    run := CreateCutOff(request, newId, failure);
    run := CreateMissed(run, 1, q);
    run := OrphanCommits(run, q, now);
  }

  lemma OrphanCommits(run: Trace, q: Statement, now: Time) returns (longer: Trace)
    requires IsRun(run) && q.Insert? && 0 in run.Last().phases && run.Last().phases[0].Finished()
    requires run.Last() == State([], run.Last().phases, map[0 := q])
    ensures IsRun(longer) && longer.states[0] == run.states[0]
    ensures longer.events == run.events + [RunOrphan(0, now, DbError(true, None, ""))]
    ensures longer.Last().phases == run.Last().phases && longer.Last().table == [NewRow(q, now)]
  {
    var late := RunOrphan(0, now, DbError(true, None, ""));
    longer := Advance(Next, run.states[0], run, late, Apply(run.Last(), late));
  }

  lemma CreateCutOff(request: Request, newId: Uuid, failure: Option<string>) returns (run: Trace)
    requires request.Create? && Validate(request, newId).Success?
    ensures IsRun(run) && run.states[0].table == []
    ensures var cut := if failure.None? then Drop(0) else Fail(0, Other(failure.value));
            run.events == [Begin(0, request, newId), Send(0), cut]
    ensures var end := if failure.None? then Dropped else Answered(Refused(Database(Other(failure.value))));
            run.Last() == State([], map[0 := end], map[0 := Validate(request, newId).value])
  {
    var s0, begin := State([], map[], map[]), Begin(0, request, newId);
    var cut := if failure.None? then Drop(0) else Fail(0, Other(failure.value));
    run := Advance(Next, s0, Run([s0], []), begin, Apply(s0, begin));
    run := Advance(Next, s0, run, Send(0), Apply(run.Last(), Send(0)));
    run := Advance(Next, s0, run, cut, Apply(run.Last(), cut));
  }

  // A list of the empty table begins, and is answered, while the statement of a cut-off create is on its way.
  lemma CreateMissed(run: Trace, x: RequestId, q: Statement) returns (longer: Trace)
    requires IsRun(run) && x != 0 && q.Insert? && run.Last().phases.Keys == {0}
    requires run.Last() == State([], run.Last().phases, map[0 := q])
    ensures IsRun(longer) && longer.states[0] == run.states[0]
    ensures longer.events == run.events + [Begin(x, List, ""), Send(x), RunSelectAll(x, []), Deliver(x)]
    ensures longer.Last() == State([], run.Last().phases[x := Answered(Listed([]))], map[0 := q])
  {
    var start, s := run.states[0], run.Last();
    var begin, list := Begin(x, List, ""), RunSelectAll(x, []);
    longer := Advance(Next, start, run, begin, Apply(s, begin));
    longer := Advance(Next, start, longer, Send(x), Apply(longer.Last(), Send(x)));
    longer := Advance(Next, start, longer, list, Apply(longer.Last(), list));
    longer := Advance(Next, start, longer, Deliver(x), Apply(longer.Last(), Deliver(x)));
  }

  /* ----- what an earlier 201 guarantees ----- */

  lemma {:induction false} CreatedIsInTable(run: Trace, i: nat, r: RequestId, u: User)
    requires IsRun(run) && i < |run.states| && r in run.states[i].phases
    requires run.states[i].phases[r] in {Executed(Created(u)), Answered(Created(u))}
    ensures u in run.states[i].table
  {
    var k := AnswerOrigin(run, i, r, Created(u));
    assert StepAt(Next, run, k);
    TableGrows(run, k + 1, i);
    var last := |run.states[k + 1].table| - 1;
    assert run.states[k + 1].table[last] == u;
    assert run.states[i].table[last] == u;
  }

  // Before states[i], the query of `r` failed with this error.
  ghost predicate Failed(run: Trace, i: nat, r: RequestId, err: SqlxError) {
    exists k :: 0 <= k < i <= |run.events| && run.events[k] == Fail(r, err)
  }

  /**
   Durability: a user answered with 201 appears, unchanged, in every list delivered to a request that began later,
   and a later get of its id finds it. A refusal of the later request is the failure of its query, never a 404.
   */
  lemma LaterReadsSeeCreated(run: Trace, d: nat, b: nat, i: nat, u: User, a: Answer)
    requires IsRun(run) && d < b < i < |run.states| && run.events[d].Deliver? && run.events[b].Begin?
    requires run.events[d].r in run.states[d + 1].phases
    requires run.states[d + 1].phases[run.events[d].r] == Answered(Created(u))
    requires run.events[b].request in {List, GetUser(u.id)}
    requires run.events[b].r in run.states[i].phases && run.states[i].phases[run.events[b].r] == Answered(a)
    ensures match a
            case Listed(users) => run.events[b].request.List? && u in users
            case Found(v) => run.events[b].request.GetUser? && v == u
            case Refused(error) => error.Database? && Failed(run, i, run.events[b].r, error.err)
            case Created(_) => false
  {
    var r := run.events[b].r;
    var k := AnswerOrigin(run, i, r, a);
    var s, e := run.states[k], run.events[k];
    assert StepAt(Next, run, k);
    BeginIsFirst(run, b, k);
    assert StepAt(Next, run, b);
    CreatedIsInTable(run, d + 1, run.events[d].r, u);
    TableGrows(run, d + 1, k);
    assert u in s.table;
    if e.RunsStatement() {
      StatementFromRequest(run, b, k);
      match e
      case RunSelectAll(_, rows) =>
        assert u in multiset(rows);
      case RunSelectById(_) =>
        FindByIdFinds(s.table, u.id);
        InvHolds(run, k);
        OnlyRowWithId(s.table, u, FindById(s.table, u.id).value);
    }
  }

  lemma OnlyRowWithId(table: seq<User>, u: User, v: User)
    requires TableInv(table) && u in table && v in table
    ensures u.id == v.id || u.email == v.email ==> u == v
  {
    var i :| 0 <= i < |table| && table[i] == u;
    var j :| 0 <= j < |table| && table[j] == v;
  }

  /* ----- refusals ----- */

  // A failure of `r` that the server has not reported is not put in the words of a constraint violation.
  ghost predicate WellWorded(run: Trace, r: RequestId) {
    forall k :: 0 <= k < |run.events| && run.events[k].Fail? && run.events[k].r == r && run.events[k].err.Other?
                ==> !ReadsAsConflict(run.events[k].err)
  }

  // At events[k] the insert of `r` met a row with its id or its email.
  ghost predicate MetConflict(run: Trace, k: nat, r: RequestId)
    requires IsRun(run)
  {
    && k < |run.events|
    && run.events[k].RunInsert? && run.events[k].r == r
    && StatementOf(run.states[k], r).Some? && StatementOf(run.states[k], r).value.Insert?
    && var q := StatementOf(run.states[k], r).value;
       Taken(run.states[k].table, q.id, q.email)
  }

  /**
   An answer is a 409 if and only if, at the step that decided it, the insert met a row with its id or email or the
   query failed with an error worded like a conflict.
   */
  lemma ConflictExactly(run: Trace, i: nat, r: RequestId, a: Answer) returns (k: nat)
    requires IsRun(run) && i < |run.states| && r in run.states[i].phases
    requires run.states[i].phases[r] in {Executed(a), Answered(a)}
    ensures k < i && Origin(run, k, r, a)
    ensures a.Status() == 409
       <==> MetConflict(run, k, r) || (run.events[k].Fail? && ReadsAsConflict(run.events[k].err))
  {
    k := AnswerOrigin(run, i, r, a);
    assert StepAt(Next, run, k);
  }

  /**
   A request answered 400, 404 or 409 does not change the table, before or after its answer, unless a failure that
   the server has not reported was worded like a conflict.
   */
  lemma RefusedChangesNothing(run: Trace, i: nat, r: RequestId, a: Answer, k: nat)
    requires IsRun(run) && WellWorded(run, r) && i < |run.states| && r in run.states[i].phases
    requires run.states[i].phases[r] == Answered(a) && a.Status() in {400, 404, 409}
    requires k < |run.events| && run.events[k].r == r
    ensures run.states[k + 1].table == run.states[k].table
  {
    assert StepAt(Next, run, k);
    if Commits(run.states[k], run.events[k]) {
      var l := AnswerOrigin(run, i, r, a);
      assert StepAt(Next, run, l);
      if run.events[l].RunsStatement() {
        OneEffect(run, k, l);
      } else if run.events[l].Begin? {
        InvHolds(run, l);
        BeginIsFirst(run, l, k);
        KnownStays(run, l + 1, k, r);
      } else {
        RejectedNeverRuns(run, l, k);
      }
    }
  }

  // A statement that the server rejects has had no effect and will have none.
  lemma RejectedNeverRuns(run: Trace, l: nat, k: nat)
    requires IsRun(run) && l < |run.events| && run.events[l].Fail? && run.events[l].err.Server?
    requires k < |run.events| && run.events[k].r == run.events[l].r
    ensures !run.events[k].RunsStatement()
  {
    assert StepAt(Next, run, l);
    InvHolds(run, l);
    if run.events[k].RunsStatement() {
      EffectSpends(run, k);
      if k < l {
        KnownStays(run, k + 1, l, run.events[l].r);
      } else {
        KnownStays(run, l + 1, k, run.events[l].r);
      }
    }
  }

  // `r` is answered 400, 404 or 409 although its own row is committed; its query failed with this error.
  ghost predicate Misled(run: Trace, r: RequestId, err: SqlxError) {
    && IsRun(run) && r in run.Last().phases
    && run.Last().phases[r].Answered? && run.Last().phases[r].answer.Status() in {400, 404, 409}
    && Fail(r, err) in run.events
    && exists k :: 0 <= k < |run.events| && run.events[k].r == r && Commits(run.states[k], run.events[k])
  }

  lemma FailsOnce(run: Trace, k: nat, l: nat)
    requires IsRun(run) && k < l < |run.events| && run.events[k].Fail? && run.events[l].r == run.events[k].r
    ensures !run.events[l].Fail?
  {
    assert StepAt(Next, run, k);
    assert StepAt(Next, run, l);
    KnownStays(run, k + 1, l, run.events[k].r);
  }

  lemma MisledByWording(run: Trace, r: RequestId, err: SqlxError)
    requires Misled(run, r, err)
    ensures err.Other? && ReadsAsConflict(err)
  {
    var l :| 0 <= l < |run.events| && run.events[l] == Fail(r, err);
    var k :| 0 <= k < |run.events| && run.events[k].r == r && Commits(run.states[k], run.events[k]);
    assert StepAt(Next, run, k);
    if err.Server? {
      RejectedNeverRuns(run, l, k);
    }
    if !ReadsAsConflict(err) {
      forall j | 0 <= j < |run.events| && run.events[j].Fail? && run.events[j].r == r ensures j == l {
        if j < l {
          FailsOnce(run, j, l);
        } else if l < j {
          FailsOnce(run, l, j);
        }
      }
      RefusedChangesNothing(run, |run.events|, r, run.Last().phases[r].answer, k);
      assert false;
    }
  }

  // A run of one create, up to the commit of its row.
  lemma CreateAlone(request: Request, newId: Uuid, now: Time) returns (run: Trace)
    requires request.Create? && Validate(request, newId).Success?
    ensures IsRun(run) && run.states[0].table == []
    ensures var u := NewRow(Validate(request, newId).value, now);
            run.Last() == State([u], map[0 := Executed(Created(u))], map[])
    ensures |run.events| == 3 && run.events[2].r == 0 && Commits(run.states[2], run.events[2])
  {
    var q := Validate(request, newId).value;
    var s0, s1 := State([], map[], map[]), State([], map[0 := Acquiring(q)], map[]);
    var s2, insert := State([], map[0 := Sent(q)], map[]), RunInsert(0, now, DbError(true, None, ""));
    run := Advance(Next, s0, Run([s0], []), Begin(0, request, newId), s1);
    run := Advance(Next, s0, run, Send(0), s2);
    run := Advance(Next, s0, run, insert, Apply(s2, insert));
  }

  // For every valid payload and every such failure, a run whose client is told 409 although the row is there.
  lemma MisleadingConflict(request: Request, newId: Uuid, err: SqlxError, now: Time) returns (run: Trace)
    requires request.Create? && Validate(request, newId).Success? && err.Other? && ReadsAsConflict(err)
    ensures Misled(run, 0, err)
    ensures run.states[0].table == [] && run.Last().table == [NewRow(Validate(request, newId).value, now)]
  {
    var alone := CreateAlone(request, newId, now);
    var fail := Fail(0, err);
    run := Advance(Next, alone.states[0], alone, fail, Apply(alone.Last(), fail));
    assert run.events[3] == fail;
    assert run.states[2] == alone.states[2] && run.events[2] == alone.events[2];
    assert Commits(run.states[2], run.events[2]);
  }

  lemma ValidPayload(newId: Uuid)
    ensures Validate(Create("n", "@"), newId) == Success(Insert(newId, "n", "@"))
  {
    TrimPadded("", "n", "");
    assert "" + "n" + "" == "n";
  }

  /**
   The exact condition: a failure can leave a client so misled if and only if it is worded like a conflict and is
   not the server's own report.
   */
  lemma MisleadsExactlyWhenMisworded(err: SqlxError)
    ensures err.Other? && ReadsAsConflict(err) <==> exists run, r :: Misled(run, r, err)
  {
    if err.Other? && ReadsAsConflict(err) {
      ValidPayload("");
      var run := MisleadingConflict(Create("n", "@"), "", err, 0);
      assert Misled(run, 0, err);
    }
    if run, r :| Misled(run, r, err) {
      MisledByWording(run, r, err);
    }
  }

  /* ----- counting rows ----- */

  // Before states[i], the requests whose insert was committed.
  ghost function Committers(run: Trace, i: nat): set<RequestId>
    requires IsRun(run) && i <= |run.events|
  {
    if i == 0 then {}
    else Committers(run, i - 1) + if Commits(run.states[i - 1], run.events[i - 1]) then {run.events[i - 1].r} else {}
  }

  lemma {:induction false} CommitterCommitted(run: Trace, i: nat, r: RequestId) returns (k: nat)
    requires IsRun(run) && i <= |run.events| && r in Committers(run, i)
    ensures k < i && Commits(run.states[k], run.events[k]) && run.events[k].r == r
  {
    if r in Committers(run, i - 1) {
      k := CommitterCommitted(run, i - 1, r);
    } else {
      k := i - 1;
    }
  }

  lemma {:induction false} CommitsAreRecorded(run: Trace, i: nat, k: nat)
    requires IsRun(run) && k < i <= |run.events| && Commits(run.states[k], run.events[k])
    ensures run.events[k].r in Committers(run, i)
  {
    if k < i - 1 {
      CommitsAreRecorded(run, i - 1, k);
    }
  }

  lemma CommitsOnce(run: Trace, i: nat)
    requires IsRun(run) && i < |run.events| && Commits(run.states[i], run.events[i])
    ensures run.events[i].r !in Committers(run, i)
  {
    if run.events[i].r in Committers(run, i) {
      var k := CommitterCommitted(run, i, run.events[i].r);
      OneEffect(run, k, i);
    }
  }

  lemma CommittersStep(run: Trace, i: nat)
    requires IsRun(run) && i < |run.events|
    ensures |Committers(run, i + 1)|
         == |Committers(run, i)| + if Commits(run.states[i], run.events[i]) then 1 else 0
  {
    if Commits(run.states[i], run.events[i]) {
      CommitsOnce(run, i);
    }
  }

  lemma TableStepLength(run: Trace, i: nat)
    requires IsRun(run) && i < |run.events|
    ensures |run.states[i + 1].table|
         == |run.states[i].table| + if Commits(run.states[i], run.events[i]) then 1 else 0
  {
    assert StepAt(Next, run, i);
  }

  lemma {:induction false} RowsAreCommits(run: Trace, i: nat)
    requires IsRun(run) && i <= |run.events|
    ensures |run.states[i].table| == |run.states[0].table| + |Committers(run, i)|
  {
    if i > 0 {
      RowsAreCommits(run, i - 1);
      CommittersStep(run, i - 1);
      TableStepLength(run, i - 1);
    }
  }

  // The requests answered 201, and those whose row was committed although no 201 has reached the client.
  ghost function Created201(s: State): set<RequestId> {
    set r | r in s.phases && s.phases[r].Answered? && s.phases[r].answer.Created?
  }

  ghost function Unacknowledged(run: Trace, i: nat): set<RequestId>
    requires IsRun(run) && i <= |run.events|
  {
    Committers(run, i) - Created201(run.states[i])
  }

  // Where a request stands once its row is committed: waiting, answered 201, dropped, or cut off by a failure that
  // the server has not reported.
  ghost predicate CommittedPhase(run: Trace, i: nat, r: RequestId)
    requires i < |run.states| && r in run.states[i].phases && i <= |run.events|
  {
    match run.states[i].phases[r]
    case Executed(a) => a.Created?
    case Dropped => true
    case Answered(a) =>
      a.Created? || (a.Refused? && a.error.Database? && a.error.err.Other? && Failed(run, i, r, a.error.err))
    case _ => false
  }

  /**
   Conservation: the table has grown by exactly the 201 answers plus the commits whose 201 never arrived. Such a
   commit, also one made after its request ended, belongs to a request still waiting for its answer, dropped by the
   timeout, or cut off from the database.
   */
  lemma RowCount(run: Trace, i: nat)
    requires IsRun(run) && i <= |run.events|
    ensures |run.states[i].table|
         == |run.states[0].table| + |Created201(run.states[i])| + |Unacknowledged(run, i)|
    ensures forall r :: r in Unacknowledged(run, i) ==> r in run.states[i].phases && CommittedPhase(run, i, r)
  {
    RowsAreCommits(run, i);
    CreatedAreCommitters(run, i);
    assert Committers(run, i) == Created201(run.states[i]) + Unacknowledged(run, i);
    forall r | r in Unacknowledged(run, i)
      ensures r in run.states[i].phases && CommittedPhase(run, i, r)
    {
      var k := CommitterCommitted(run, i, r);
      CommitLeavesPhase(run, k, i);
    }
  }

  lemma CreatedAreCommitters(run: Trace, i: nat)
    requires IsRun(run) && i <= |run.events|
    ensures Created201(run.states[i]) <= Committers(run, i)
  {
    forall r | r in Created201(run.states[i]) ensures r in Committers(run, i) {
      var k := AnswerOrigin(run, i, r, run.states[i].phases[r].answer);
      assert StepAt(Next, run, k);
      CommitsAreRecorded(run, i, k);
    }
  }

  lemma CommitLeavesPhase(run: Trace, k: nat, i: nat)
    requires IsRun(run) && k < i <= |run.events| && Commits(run.states[k], run.events[k])
    ensures run.events[k].r in run.states[i].phases && CommittedPhase(run, i, run.events[k].r)
  {
    var r := run.events[k].r;
    EffectSpends(run, k);
    assert StepAt(Next, run, k);
    KnownStays(run, k + 1, i, r);
    var phase := run.states[i].phases[r];
    if phase.Executed? || phase.Answered? {
      var l := AnswerOrigin(run, i, r, phase.answer);
      assert StepAt(Next, run, l);
      if run.events[l].RunsStatement() {
        OneEffect(run, k, l);
      } else if run.events[l].Begin? {
        InvHolds(run, l);
        BeginIsFirst(run, l, k);
        KnownStays(run, l + 1, k, r);
      } else {
        KnownStays(run, l + 1, i, r);
        assert run.events[l] == Fail(r, phase.answer.error.err);
        if phase.answer.error.err.Server? {
          RejectedNeverRuns(run, l, k);
        }
      }
    }
  }
}
