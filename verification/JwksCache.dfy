/** The shared cache object: each method is what a request does to it between two suspension points. */
module JwksCache {
  import opened JwksProtocol
  import opened Wrappers

  class Cache {
    var cachedJson: Option<string>
    var lock: Lock
    var pcs: map<RequestId, Pc>

    constructor ()
      ensures View() == INIT
    {
      cachedJson := None;
      lock := Lock([], {}, None);
      pcs := map[];
    }

    // The protocol state this object stands for.
    function View(): State
      reads this
    {
      State(cachedJson, lock, pcs)
    }

    method AwaitRead(r: RequestId)
      requires Enabled(View(), Arrive(r))
      modifies this
      ensures View() == Apply(old(View()), Arrive(r))
    {
      lock := lock.(queue := lock.queue + [r]);
      pcs := pcs[r := WaitRead];
    }

    method AcquireRead(r: RequestId)
      requires Enabled(View(), GrantRead(r))
      modifies this
      ensures View() == Apply(old(View()), GrantRead(r))
    {
      lock := lock.(queue := lock.queue[1..], readers := lock.readers + {r});
      pcs := pcs[r := HasRead];
    }

    // The block that looks at the cache under the read guard and releases it.
    method LookUp(r: RequestId) returns (hit: Option<string>)
      requires Enabled(View(), Check(r))
      modifies this
      ensures hit == old(cachedJson)
      ensures View() == Apply(old(View()), Check(r))
    {
      hit := cachedJson;
      if hit.Some? {
        pcs := pcs[r := Done(Success(hit.value))];
      } else {
        pcs := pcs[r := Sending];
      }
      lock := lock.(readers := lock.readers - {r});
    }

    method Responded(r: RequestId, failure: Option<string>)
      requires Enabled(View(), Respond(r, failure))
      modifies this
      ensures View() == Apply(old(View()), Respond(r, failure))
    {
      if failure.Some? {
        pcs := pcs[r := Done(Failure(SendFailed(failure.value)))];
      } else {
        pcs := pcs[r := ReadingBody];
      }
    }

    method BodyArrived(r: RequestId, outcome: Result<string, string>)
      requires Enabled(View(), ReadBody(r, outcome))
      modifies this
      ensures View() == Apply(old(View()), ReadBody(r, outcome))
    {
      match outcome {
        case Success(json) =>
          lock := lock.(queue := lock.queue + [r]);
          pcs := pcs[r := WaitWrite(json)];
        case Failure(reason) =>
          pcs := pcs[r := Done(Failure(BodyFailed(reason)))];
      }
    }

    method AcquireWrite(r: RequestId)
      requires Enabled(View(), GrantWrite(r))
      modifies this
      ensures View() == Apply(old(View()), GrantWrite(r))
    {
      lock := lock.(queue := lock.queue[1..], writer := Some(r));
      pcs := pcs[r := HasWrite(pcs[r].body)];
    }

    // Overwrites the cache under the write guard, without looking at it again, and releases the guard.
    method StoreAndReturn(r: RequestId) returns (json: string)
      requires Enabled(View(), Store(r))
      modifies this
      ensures cachedJson == Some(json)
      ensures View() == Apply(old(View()), Store(r))
    {
      json := pcs[r].body;
      cachedJson := Some(json);
      pcs := pcs[r := Done(Success(json))];
      lock := lock.(writer := None);
    }

    // The future is dropped: a queued request leaves the queue, a granted guard is given back.
    method DropRequest(r: RequestId)
      requires Enabled(View(), Drop(r))
      modifies this
      ensures View() == Apply(old(View()), Drop(r))
    {
      lock := Lock(Without(lock.queue, r), lock.readers - {r}, if lock.writer == Some(r) then None else lock.writer);
      pcs := pcs[r := Dropped];
    }

    // The part of `get_jwks_json` after a miss, with nobody in the way.
    method FetchAndStore(r: RequestId, failure: Option<string>, outcome: Result<string, string>)
      returns (result: Result<string, FetchError>)
      requires lock == Lock([], {}, None) && r in pcs && pcs[r] == Sending
      modifies this
      ensures lock == old(lock) && pcs == old(pcs)[r := Done(result)]
      ensures failure.None? && outcome.Success? ==>
                result == Success(outcome.value) && cachedJson == Some(outcome.value)
      ensures failure.Some? || outcome.Failure? ==> result.Failure? && cachedJson == old(cachedJson)
    {
      Responded(r, failure);
      if failure.Some? {
        return Failure(SendFailed(failure.value));
      }
      BodyArrived(r, outcome);
      if outcome.Failure? {
        return Failure(BodyFailed(outcome.error));
      }
      AcquireWrite(r);
      var json := StoreAndReturn(r);
      result := Success(json);
    }

    /** `get_jwks_json` with nobody in the way: a hit costs no fetch, a miss stores exactly what it returns. */
    method GetJwksJson(r: RequestId, failure: Option<string>, outcome: Result<string, string>)
      returns (result: Result<string, FetchError>)
      requires lock == Lock([], {}, None) && r !in pcs
      modifies this
      ensures lock == old(lock) && pcs == old(pcs)[r := Done(result)]
      ensures old(cachedJson).Some? ==> result == Success(old(cachedJson).value) && cachedJson == old(cachedJson)
      ensures old(cachedJson).None? && failure.None? && outcome.Success? ==>
                result == Success(outcome.value) && cachedJson == Some(outcome.value)
      ensures old(cachedJson).None? && (failure.Some? || outcome.Failure?) ==> result.Failure? && cachedJson == None
    {
      AwaitRead(r);
      AcquireRead(r);
      var hit := LookUp(r);
      if hit.Some? {
        return Success(hit.value);
      }
      result := FetchAndStore(r, failure, outcome);
    }
  }
}
