/** Creates that race for one email. */
module UserRaces {
  import opened Runs
  import opened Text
  import opened UserProperties
  import opened Users
  import opened Wrappers

  // A row that was not there at the start was committed by some request of the run.
  lemma {:induction false} RowOrigin(run: Trace, i: nat, u: User) returns (k: nat)
    requires IsRun(run) && i < |run.states| && u in run.states[i].table && u !in run.states[0].table
    ensures k < i && Commits(run.states[k], run.events[k])
    ensures u == NewRow(StatementOf(run.states[k], run.events[k].r).value, run.events[k].now)
  {
    assert StepAt(Next, run, i - 1);
    if u in run.states[i - 1].table {
      k := RowOrigin(run, i - 1, u);
    } else {
      k := i - 1;
    }
  }

  // The row committed at events[k] carries what its request asked for.
  lemma CommittedRow(run: Trace, k: nat) returns (b: nat)
    requires IsRun(run) && k < |run.events| && Commits(run.states[k], run.events[k])
    ensures b < k && run.events[b].Begin? && run.events[b].r == run.events[k].r && run.events[b].request.Create?
    ensures var q := StatementOf(run.states[k], run.events[k].r).value;
            && q.id == run.events[b].newId
            && q.email == run.events[b].request.email
            && q.name == Trim(run.events[b].request.name)
  {
    b := BeginOf(run, k, run.events[k].r);
    StatementFromRequest(run, b, k);
  }

  // `r` asked to create a user with this email, with a valid payload.
  ghost predicate Asks(run: Trace, b: nat, r: RequestId, email: string) {
    && b < |run.events| && run.events[b].Begin? && run.events[b].r == r
    && run.events[b].request.Create? && run.events[b].request.email == email
    && Validate(run.events[b].request, run.events[b].newId).Success?
  }

  ghost predicate Racer(run: Trace, r: RequestId, email: string) {
    exists b :: Asks(run, b, r, email)
  }

  // Nothing but the race decides: no racer is dropped, no query of one fails, and all are answered.
  ghost predicate RaceUndisturbed(run: Trace, email: string)
    requires IsRun(run)
  {
    && (forall k :: 0 <= k < |run.events| && Racer(run, run.events[k].r, email)
                    ==> !run.events[k].Drop? && !run.events[k].Fail?)
    && (forall r :: Racer(run, r, email) ==> r in run.Last().phases && run.Last().phases[r].Answered?)
  }

  predicate BeginsCreate(e: Event) {
    e.Begin? && e.request.Create?
  }

  // The email is new to the table, and the ids generated for creates collide neither with it nor with each other.
  ghost predicate FreshRace(run: Trace, email: string)
    requires IsRun(run)
  {
    && (forall u :: u in run.states[0].table ==> u.email != email)
    && (forall b, u :: 0 <= b < |run.events| && BeginsCreate(run.events[b]) && u in run.states[0].table
                       ==> run.events[b].newId != u.id)
    && (forall b, c ::
          && 0 <= b < |run.events| && BeginsCreate(run.events[b])
          && 0 <= c < |run.events| && BeginsCreate(run.events[c])
          && run.events[b].newId == run.events[c].newId
          ==> b == c)
  }

  ghost predicate Wins(run: Trace, r: RequestId)
    requires IsRun(run)
  {
    r in run.Last().phases && run.Last().phases[r].Answered? && run.Last().phases[r].answer.Created?
  }

  // The insert that decided a racer's answer.
  lemma RacerInserts(run: Trace, r: RequestId, email: string) returns (b: nat, k: nat)
    requires IsRun(run) && RaceUndisturbed(run, email) && Racer(run, r, email)
    ensures Asks(run, b, r, email) && b < k < |run.events| && run.events[k].RunInsert? && run.events[k].r == r
    ensures StatementOf(run.states[k], r) == Some(Insert(run.events[b].newId, Trim(run.events[b].request.name), email))
    ensures r in run.states[k + 1].phases && run.states[k + 1].phases[r] == Executed(run.Last().phases[r].answer)
  {
    b :| Asks(run, b, r, email);
    k := AnswerOrigin(run, |run.events|, r, run.Last().phases[r].answer);
    assert StepAt(Next, run, b);
    assert StepAt(Next, run, k);
    BeginIsFirst(run, b, k);
    StatementFromRequest(run, b, k);
  }

  // A racer that met a conflict lost to another racer.
  lemma LoserNamesWinner(run: Trace, email: string, b: nat, k: nat) returns (winner: RequestId)
    requires IsRun(run) && RaceUndisturbed(run, email) && FreshRace(run, email)
    requires b < k < |run.events| && Asks(run, b, run.events[b].r, email)
    requires run.events[k].RunInsert? && run.events[k].r == run.events[b].r
    requires StatementOf(run.states[k], run.events[b].r)
          == Some(Insert(run.events[b].newId, Trim(run.events[b].request.name), email))
    requires Taken(run.states[k].table, run.events[b].newId, email)
    ensures Racer(run, winner, email) && Wins(run, winner)
  {
    var table := run.states[k].table;
    var n :| 0 <= n < |table| && (table[n].id == run.events[b].newId || table[n].email == email);
    var u := table[n];
    assert u !in run.states[0].table;
    var l := RowOrigin(run, k, u);
    var c := CommittedRow(run, l);
    assert u.id == run.events[c].newId;
    if u.id == run.events[b].newId {
      assert c == b;
      OneEffect(run, k, l);
      assert false;
    }
    winner := run.events[l].r;
    assert StepAt(Next, run, c);
    CommitterAsks(run, c, l);
    assert Asks(run, c, winner, email);
    CommitterWins(run, email, l);
  }

  lemma CommitterAsks(run: Trace, c: nat, l: nat)
    requires IsRun(run) && c < l < |run.events| && run.events[c].Begin? && run.events[c].r == run.events[l].r
    requires Commits(run.states[l], run.events[l])
    ensures Validate(run.events[c].request, run.events[c].newId).Success?
  {
    StatementFromRequest(run, c, l);
  }

  lemma CommitterWins(run: Trace, email: string, l: nat)
    requires IsRun(run) && RaceUndisturbed(run, email) && l < |run.events| && Commits(run.states[l], run.events[l])
    requires Racer(run, run.events[l].r, email)
    ensures Wins(run, run.events[l].r)
  {
    var r := run.events[l].r;
    var b, k := RacerInserts(run, r, email);
    OneEffect(run, k, l);
    assert StepAt(Next, run, l);
  }

  // A winner's row is in the table, with the email and the id generated for it.
  lemma WinnerRow(run: Trace, email: string, r: RequestId) returns (b: nat)
    requires IsRun(run) && RaceUndisturbed(run, email) && Racer(run, r, email) && Wins(run, r)
    ensures Asks(run, b, r, email)
    ensures var u := run.Last().phases[r].answer.user;
            u in run.Last().table && u.email == email && u.id == run.events[b].newId
  {
    var k: nat;
    b, k := RacerInserts(run, r, email);
    assert StepAt(Next, run, k);
    CreatedIsInTable(run, |run.events|, r, run.Last().phases[r].answer.user);
  }

  // Two winners of one email would be two rows with that email.
  lemma WinnersAgree(run: Trace, email: string, r: RequestId, q: RequestId)
    requires IsRun(run) && RaceUndisturbed(run, email) && FreshRace(run, email)
    requires Racer(run, r, email) && Wins(run, r) && Racer(run, q, email) && Wins(run, q)
    ensures r == q
  {
    var b := WinnerRow(run, email, r);
    var c := WinnerRow(run, email, q);
    InvHolds(run, |run.events|);
    OnlyRowWithId(run.Last().table, run.Last().phases[r].answer.user, run.Last().phases[q].answer.user);
    assert BeginsCreate(run.events[b]) && BeginsCreate(run.events[c]);
  }

  // A racer's insert decides between 201 and 409.
  lemma RacerOutcome(run: Trace, r: RequestId, email: string) returns (b: nat, k: nat)
    requires IsRun(run) && RaceUndisturbed(run, email) && Racer(run, r, email)
    ensures b < k < |run.events| && Asks(run, b, r, email) && run.events[k].RunInsert? && run.events[k].r == r
    ensures StatementOf(run.states[k], r) == Some(Insert(run.events[b].newId, Trim(run.events[b].request.name), email))
    ensures Wins(run, r) <==> !Taken(run.states[k].table, run.events[b].newId, email)
    ensures !Wins(run, r) ==> run.Last().phases[r].answer.Status() == 409
  {
    b, k := RacerInserts(run, r, email);
    assert StepAt(Next, run, k);
  }

  /** Of any requests racing to create one fresh email, exactly one is answered 201 and every other one 409. */
  lemma RaceHasOneWinner(run: Trace, email: string) returns (winner: RequestId)
    requires IsRun(run) && RaceUndisturbed(run, email) && FreshRace(run, email)
    requires exists r :: Racer(run, r, email)
    ensures Racer(run, winner, email) && Wins(run, winner)
    ensures forall r :: Racer(run, r, email) && r != winner ==> run.Last().phases[r].answer.Status() == 409
  {
    winner :| Racer(run, winner, email);
    var b, k := RacerOutcome(run, winner, email);
    if !Wins(run, winner) {
      winner := LoserNamesWinner(run, email, b, k);
    }
    forall q | Racer(run, q, email) && q != winner ensures run.Last().phases[q].answer.Status() == 409 {
      var c, l := RacerOutcome(run, q, email);
      if Wins(run, q) {
        WinnersAgree(run, email, q, winner);
      }
    }
  }
}
