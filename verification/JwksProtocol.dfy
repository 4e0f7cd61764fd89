/**
 The lazy JWKS cache as the protocol that any number of concurrent requests run against it.

 A request is a program counter; each event is what one request does between two suspension points of
 `get_jwks_json`. The lock is tokio's fair read-write lock: waiters queue in arrival order and only the head
 of the queue is granted. The endpoint may answer anything at any time or never, and the outer timeout may
 drop a request wherever it is.
 */
module JwksProtocol {
  import opened Runs
  import opened Wrappers

  type RequestId = nat

  datatype FetchError = SendFailed(reason: string) | BodyFailed(reason: string)

  datatype Pc =
    | WaitRead                  // queued for the read guard
    | HasRead                   // read guard granted, cache not looked at yet
    | Sending                   // waiting for the response head
    | ReadingBody               // waiting for the response body
    | WaitWrite(body: string)   // queued for the write guard
    | HasWrite(body: string)    // write guard granted, body not stored yet
    | Done(result: Result<string, FetchError>)
    | Dropped
  {
    predicate Finished() {
      Done? || Dropped?
    }

    predicate Unsuccessful() {
      Dropped? || (Done? && result.Failure?)
    }

    predicate Waiting() {
      WaitRead? || WaitWrite?
    }

    predicate Fetching() {
      Sending? || ReadingBody?
    }

    // Has seen an empty cache and may still store a body.
    predicate Missed() {
      Fetching() || WaitWrite? || HasWrite?
    }
  }

  datatype Lock = Lock(queue: seq<RequestId>, readers: set<RequestId>, writer: Option<RequestId>)

  datatype State = State(cached: Option<string>, lock: Lock, pcs: map<RequestId, Pc>)

  const INIT := State(None, Lock([], {}, None), map[])

  datatype Event =
    | Arrive(r: RequestId)
    | GrantRead(r: RequestId)
    | Check(r: RequestId)
    | Respond(r: RequestId, failure: Option<string>)
    | ReadBody(r: RequestId, outcome: Result<string, string>)
    | GrantWrite(r: RequestId)
    | Store(r: RequestId)
    | Drop(r: RequestId)
  {
    // Answers of the remote endpoint; every other event depends on the service alone.
    predicate FromEndpoint() {
      Respond? || ReadBody?
    }
  }

  predicate Head(lock: Lock, r: RequestId) {
    lock.queue != [] && lock.queue[0] == r
  }

  predicate Enabled(s: State, e: Event) {
    if e.Arrive? then e.r !in s.pcs
    else
      && e.r in s.pcs
      && var pc := s.pcs[e.r];
         match e
         case GrantRead(r) => pc.WaitRead? && Head(s.lock, r) && s.lock.writer.None?
         case Check(_) => pc.HasRead?
         case Respond(_, _) => pc.Sending?
         case ReadBody(_, _) => pc.ReadingBody?
         case GrantWrite(r) => pc.WaitWrite? && Head(s.lock, r) && s.lock.writer.None? && s.lock.readers == {}
         case Store(_) => pc.HasWrite?
         case Drop(_) => !pc.Finished()
  }

  function Without(queue: seq<RequestId>, r: RequestId): (rest: seq<RequestId>)
    ensures forall x :: x in rest <==> x in queue && x != r
  {
    if queue == [] then []
    else (if queue[0] == r then [] else [queue[0]]) + Without(queue[1..], r)
  }

  function NextPc(s: State, e: Event): Pc
    requires Enabled(s, e)
  {
    match e
    case Arrive(_) => WaitRead
    case GrantRead(_) => HasRead
    case Check(_) => if s.cached.Some? then Done(Success(s.cached.value)) else Sending
    case Respond(_, failure) => if failure.Some? then Done(Failure(SendFailed(failure.value))) else ReadingBody
    case ReadBody(_, outcome) =>
      if outcome.Success? then WaitWrite(outcome.value) else Done(Failure(BodyFailed(outcome.error)))
    case GrantWrite(r) => HasWrite(s.pcs[r].body)
    case Store(r) => Done(Success(s.pcs[r].body))
    case Drop(_) => Dropped
  }

  function NextLock(s: State, e: Event): Lock
    requires Enabled(s, e)
  {
    var lock := s.lock;
    match e
    case Arrive(r) => lock.(queue := lock.queue + [r])
    case GrantRead(r) => lock.(queue := lock.queue[1..], readers := lock.readers + {r})
    case Check(r) => lock.(readers := lock.readers - {r})
    case Respond(_, _) => lock
    case ReadBody(r, outcome) => if outcome.Success? then lock.(queue := lock.queue + [r]) else lock
    case GrantWrite(r) => lock.(queue := lock.queue[1..], writer := Some(r))
    case Store(_) => lock.(writer := None)
    case Drop(r) =>
      Lock(Without(lock.queue, r), lock.readers - {r}, if lock.writer == Some(r) then None else lock.writer)
  }

  function NextCached(s: State, e: Event): Option<string>
    requires Enabled(s, e)
  {
    if e.Store? then Some(s.pcs[e.r].body) else s.cached
  }

  function Apply(s: State, e: Event): State
    requires Enabled(s, e)
  {
    State(NextCached(s, e), NextLock(s, e), s.pcs[e.r := NextPc(s, e)])
  }

  /* ----- runs ----- */

  type Trace = Run<State, Event>

  ghost predicate Next(s: State, e: Event, t: State) {
    Enabled(s, e) && t == Apply(s, e)
  }

  /* ----- what every state keeps ----- */

  predicate Distinct(queue: seq<RequestId>) {
    forall i, j :: 0 <= i < j < |queue| ==> queue[i] != queue[j]
  }

  // The lock knows exactly who waits and who holds a guard, and a writer is alone.
  ghost predicate LockInv(s: State) {
    && Distinct(s.lock.queue)
    && (forall r :: r in s.lock.queue <==> r in s.pcs && s.pcs[r].Waiting())
    && (forall r :: r in s.lock.readers <==> r in s.pcs && s.pcs[r].HasRead?)
    && (forall r :: s.lock.writer == Some(r) <==> r in s.pcs && s.pcs[r].HasWrite?)
    && (s.lock.writer.Some? ==> s.lock.readers == {})
  }

  lemma {:induction false} WithoutDistinct(queue: seq<RequestId>, r: RequestId)
    requires Distinct(queue)
    ensures Distinct(Without(queue, r))
  {
    if queue != [] {
      assert Distinct(queue[1..]);
      WithoutDistinct(queue[1..], r);
      assert queue[0] !in queue[1..];
    }
  }

  lemma LockStep(s: State, e: Event)
    requires LockInv(s) && Enabled(s, e)
    ensures LockInv(Apply(s, e))
  {
    if e.Drop? {
      DropStep(s, e.r);
    } else if e.GrantRead? || e.GrantWrite? {
      GrantStep(s, e);
    }
  }

  lemma GrantStep(s: State, e: Event)
    requires LockInv(s) && Enabled(s, e) && (e.GrantRead? || e.GrantWrite?)
    ensures LockInv(Apply(s, e))
  {
    HeadIsDistinct(s.lock.queue);
  }

  lemma DropStep(s: State, r: RequestId)
    requires LockInv(s) && Enabled(s, Drop(r))
    ensures LockInv(Apply(s, Drop(r)))
  {
    WithoutDistinct(s.lock.queue, r);
  }

  lemma HeadIsDistinct(queue: seq<RequestId>)
    requires queue != [] && Distinct(queue)
    ensures Distinct(queue[1..]) && forall r :: r in queue[1..] <==> r in queue && r != queue[0]
  {
  }

  lemma {:induction false} LockHolds(run: Trace, i: nat)
    requires From(Next, run, INIT) && i < |run.states|
    ensures LockInv(run.states[i])
  {
    if i > 0 {
      LockHolds(run, i - 1);
      assert StepAt(Next, run, i - 1);
      LockStep(run.states[i - 1], run.events[i - 1]);
    }
  }

  /**
   Lock discipline over every run: a writer is alone, a request that fetches or waits holds no guard, and
   none that fetches is queued.
   */
  lemma LockDiscipline(run: Trace, i: nat, r: RequestId, q: RequestId)
    requires From(Next, run, INIT) && i < |run.states| && {r, q} <= run.states[i].pcs.Keys
    ensures var s := run.states[i];
            && (s.pcs[r].HasWrite? ==> !s.pcs[q].HasRead? && (s.pcs[q].HasWrite? ==> q == r))
            && (s.pcs[r].Fetching() ==> r !in s.lock.queue)
            && (s.pcs[r].Fetching() || s.pcs[r].Waiting() || s.pcs[r].Finished()
                ==> r !in s.lock.readers && s.lock.writer != Some(r))
  {
    LockHolds(run, i);
    assert run.states[i].lock.writer == Some(r) || !run.states[i].pcs[r].HasWrite?;
  }
}
