/**
 * The reconciler bookkeeping shared by the package controllers: the set of
 * resource uids whose status this operator instance has written, the
 * decision whether a watch event can be skipped, and the status written
 * after a failed reconciliation.
 */
module Reconcilers {
  import opened Wrappers
  import opened Crd

  /** The status patch sent to the cluster: the resource's name and namespace and the new status. */
  datatype StatusPatch = StatusPatch(name: Option<string>, namespace: Option<string>, status: Status)

  /** At most this many retries follow the first failed attempt. */
  const MaxRetries: int := 4

  /** The HTTP status of an error that means the resource is gone. */
  const NotFound: int := 404

  /**
   * `cr.status?.retryAttempt || 0`: an unset or zero attempt counts as 0.
   */
  function RetryAttempt(status: Option<Status>): (r: int)
    ensures status.None? || status.value.retryAttempt.None? ==> r == 0
    ensures status.Some? && status.value.retryAttempt.Some? ==> r == status.value.retryAttempt.value
  {
    if status.Some? && status.value.retryAttempt.Some? && status.value.retryAttempt.value != 0
    then status.value.retryAttempt.value else 0
  }

  /**
   * The status handleFailure writes: Retrying with the next attempt number
   * while fewer than four retries were made, otherwise Failed at the
   * resource's generation with the counter reset to 0.
   */
  function FailureStatus(status: Option<Status>, generation: Option<int>): Status
  {
    var attempt := RetryAttempt(status);
    if attempt < MaxRetries then EmptyStatus.(phase := Some(Retrying), retryAttempt := Some(attempt + 1))
    else EmptyStatus.(phase := Some(Failed), observedGeneration := generation, retryAttempt := Some(0))
  }

  /** The uids seen by this operator instance; `uid` is optional, as `cr.metadata!.uid!` does not check it. */
  class Reconciler {
    var uidSeen: set<Option<string>>

    constructor ()
      ensures uidSeen == {}
    {
      uidSeen := {};
    }

    /**
     * shouldSkip: never for a uid not seen before, nor while retrying;
     * otherwise exactly when the resource is pending or its generation has
     * been observed (both unset counts as observed).
     */
    function ShouldSkip(cr: Package): (r: bool)
      reads this, cr
      ensures cr.metadata.uid !in uidSeen ==> !r
      ensures cr.status.Some? && cr.status.value.phase == Some(Retrying) ==> !r
      ensures cr.metadata.uid in uidSeen && !(cr.status.Some? && cr.status.value.phase == Some(Retrying)) ==>
        (r <==> (cr.status.Some? && cr.status.value.phase == Some(Pending))
                || cr.metadata.generation == (if cr.status.Some? then cr.status.value.observedGeneration else None))
    {
      var phase := if cr.status.Some? then cr.status.value.phase else None;
      var observed := if cr.status.Some? then cr.status.value.observedGeneration else None;
      if cr.metadata.uid !in uidSeen then false
      else if phase == Some(Retrying) then false
      else phase == Some(Pending) || cr.metadata.generation == observed
    }

    /**
     * updateStatus: patches the status, then records the uid, which happens
     * only when the patch succeeds (`patched`).
     */
    method UpdateStatus(cr: Package, status: Status, patched: bool) returns (patch: StatusPatch)
      modifies this
      ensures patch == StatusPatch(cr.metadata.name, cr.metadata.namespace, status)
      ensures uidSeen == if patched then old(uidSeen) + {cr.metadata.uid} else old(uidSeen)
    {
      patch := StatusPatch(cr.metadata.name, cr.metadata.namespace, status);
      if patched {
        uidSeen := uidSeen + {cr.metadata.uid};
      }
    }

    /**
     * handleFailure: a 404 changes nothing and writes no status; any other
     * error writes FailureStatus through updateStatus.
     */
    method HandleFailure(errStatus: int, cr: Package, patched: bool) returns (patch: Option<StatusPatch>)
      modifies this
      ensures errStatus == NotFound ==> patch.None? && uidSeen == old(uidSeen)
      ensures errStatus != NotFound ==>
        && patch == Some(StatusPatch(cr.metadata.name, cr.metadata.namespace, FailureStatus(cr.status, cr.metadata.generation)))
        && uidSeen == if patched then old(uidSeen) + {cr.metadata.uid} else old(uidSeen)
    {
      if errStatus == NotFound {
        return None;
      }
      var status := FailureStatus(cr.status, cr.metadata.generation);
      var p := UpdateStatus(cr, status, patched);
      patch := Some(p);
    }
  }

  // ---------------------------------------------------------------------
  // Properties
  // ---------------------------------------------------------------------

  /**
   * A failure with fewer than four retries made moves to Retrying with the
   * attempt counted; otherwise the resource fails at its generation and the
   * counter is reset.
   */
  lemma FailureStatusChoice(status: Option<Status>, generation: Option<int>)
    ensures var r := FailureStatus(status, generation);
      && (RetryAttempt(status) < MaxRetries ==>
            r.phase == Some(Retrying) && r.retryAttempt == Some(RetryAttempt(status) + 1) && r.observedGeneration.None?)
      && (RetryAttempt(status) >= MaxRetries ==>
            r.phase == Some(Failed) && r.retryAttempt == Some(0) && r.observedGeneration == generation)
  {
  }

  /** The status after `n` failures in a row, starting from a resource without a retry count. */
  function Failures(n: nat, generation: Option<int>): Option<Status>
  {
    if n == 0 then None else Some(FailureStatus(Failures(n - 1, generation), generation))
  }

  /**
   * Four retries, five attempts in all: failures one to four leave the
   * resource Retrying with that count, the fifth marks it Failed.
   */
  lemma {:induction false} FiveAttempts(n: nat, generation: Option<int>)
    requires 1 <= n <= 5
    ensures n < 5 ==> Failures(n, generation) == Some(EmptyStatus.(phase := Some(Retrying), retryAttempt := Some(n)))
    ensures n == 5 ==>
              Failures(n, generation) == Some(EmptyStatus.(phase := Some(Failed), observedGeneration := generation, retryAttempt := Some(0)))
  {
    if n > 1 {
      FiveAttempts(n - 1, generation);
    }
  }

  /** The counter reset after Failed starts the same five-attempt cycle again. */
  lemma {:induction false} FailuresCycle(n: nat, generation: Option<int>)
    requires n >= 1
    ensures Failures(n + 5, generation) == Failures(n, generation)
  {
    if n == 1 {
      FiveAttempts(5, generation);
      FiveAttempts(1, generation);
    } else {
      FailuresCycle(n - 1, generation);
    }
  }
}
