/**
 * Requests the bridge server is working on. Cancellations have slots of their own, so that a
 * server full of turns can still be told to stop one.
 */
module InFlight {
  import opened Prelude

  type RequestId = string

  datatype Refusal = DuplicateRequestId | TooManyRequests

  /** The requests of one kind. */
  function OfKind(inFlight: map<RequestId, bool>, cancel: bool): set<RequestId> {
    set id | id in inFlight && inFlight[id] == cancel
  }

  lemma Entering(inFlight: map<RequestId, bool>, id: RequestId, cancel: bool)
    requires id !in inFlight
    ensures |OfKind(inFlight[id := cancel], cancel)| == |OfKind(inFlight, cancel)| + 1
    ensures OfKind(inFlight[id := cancel], !cancel) == OfKind(inFlight, !cancel)
  {
    assert OfKind(inFlight[id := cancel], cancel) == OfKind(inFlight, cancel) + {id};
  }

  lemma Leaving(inFlight: map<RequestId, bool>, id: RequestId)
    requires id in inFlight
    ensures |OfKind(inFlight - {id}, inFlight[id])| == |OfKind(inFlight, inFlight[id])| - 1
    ensures OfKind(inFlight - {id}, !inFlight[id]) == OfKind(inFlight, !inFlight[id])
  {
    assert OfKind(inFlight - {id}, inFlight[id]) == OfKind(inFlight, inFlight[id]) - {id};
  }

  class Dispatcher {
    const maxInFlight: nat
    const maxCancelInFlight: nat
    var inFlight: map<RequestId, bool>
    var normalInFlight: nat
    var cancelInFlight: nat

    /** The counters are the requests of either kind, and keep their limits. */
    ghost predicate Valid()
      reads this
    {
      && normalInFlight == |OfKind(inFlight, false)| <= maxInFlight
      && cancelInFlight == |OfKind(inFlight, true)| <= maxCancelInFlight
    }

    constructor (maxInFlight: nat, maxCancelInFlight: nat)
      ensures Valid() && inFlight == map[]
      ensures this.maxInFlight == maxInFlight && this.maxCancelInFlight == maxCancelInFlight
    {
      this.maxInFlight, this.maxCancelInFlight := maxInFlight, maxCancelInFlight;
      inFlight, normalInFlight, cancelInFlight := map[], 0, 0;
      new;
      assert OfKind(inFlight, false) == {} && OfKind(inFlight, true) == {};
    }

    method Dispatch(id: RequestId, cancel: bool) returns (refusal: Option<Refusal>)
      requires Valid()
      modifies this`inFlight, this`normalInFlight, this`cancelInFlight
      ensures Valid()
      ensures refusal == Some(DuplicateRequestId) <==> id in old(inFlight)
      ensures refusal == Some(TooManyRequests) <==>
        (id !in old(inFlight) && |OfKind(old(inFlight), cancel)| >= if cancel then maxCancelInFlight else maxInFlight)
      ensures inFlight == if refusal.None? then old(inFlight)[id := cancel] else old(inFlight)
    {
      if id in inFlight {
        return Some(DuplicateRequestId);
      }
      if (!cancel && normalInFlight >= maxInFlight) || (cancel && cancelInFlight >= maxCancelInFlight) {
        return Some(TooManyRequests);
      }
      Entering(inFlight, id, cancel);
      if cancel {
        cancelInFlight := cancelInFlight + 1;
      } else {
        normalInFlight := normalInFlight + 1;
      }
      inFlight := inFlight[id := cancel];
      return None;
    }

    /** The handler has finished, one way or another; its slot is free again. */
    method Settle(id: RequestId)
      requires Valid() && id in inFlight
      modifies this`inFlight, this`normalInFlight, this`cancelInFlight
      ensures Valid() && inFlight == old(inFlight) - {id}
    {
      Leaving(inFlight, id);
      if inFlight[id] {
        cancelInFlight := cancelInFlight - 1;
      } else {
        normalInFlight := normalInFlight - 1;
      }
      inFlight := inFlight - {id};
    }
  }
}
