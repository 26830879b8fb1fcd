/** One turn of the reconcile loop against the API server, with the retry after a conflict. */
module Reconciler {
  import opened Expiry
  import opened Session
  import opened Wrappers
  import opened History

  /** How the attempt after a failed status write ends. */
  datatype Retry = NotReread | NotRewritten | Rewritten

  /** The status could not be written, as a rule because someone else wrote the resource first: what
      is stored by then, and how the second attempt ends. */
  datatype Conflict = Conflict(spec: Spec, status: Status, retry: Retry)

  /** When the status is computed, when deletion is considered, and when hibernation is. */
  datatype Clock = Clock(status: Time, deletion: Time, hibernation: Time)

  datatype Outcome = Gone | Errored | Deleted | Kept

  /** A run ID set by a concurrent loop wins over the one just drawn. */
  function MergeRunID(mine: string, theirs: string): string {
    if mine != "" && theirs != "" then theirs else mine
  }

  function NextStatus(creation: Time, spec: Spec, status: Status, obs: Observation, newID: string, now: Time): Status {
    StatusOf(creation, spec, status, obs, RunIDFor(spec, status.runID, newID), now)
  }

  class Cluster {
    const creation: Time
    var present: bool
    var spec: Spec
    var status: Status

    constructor (creation: Time, spec: Spec)
      ensures this.creation == creation && present && this.spec == spec
      ensures status == Status(NotReady, false, 0, 0, 0, 0, 0, "", "")
    {
      this.creation, this.spec := creation, spec;
      present, status := true, FIRST_STATUS;
    }

    /** What a written status leads to; `updated`: the write of `hibernated` gets through. */
    method DeleteOrHibernate(clock: Clock, updated: bool) returns (outcome: Outcome)
      requires present
      modifies `present, `spec
      ensures present == !NeedsDeletion(old(spec), status, clock.deletion)
      ensures spec == if present && updated && NeedsHibernation(old(spec), status, clock.hibernation)
                      then old(spec).(hibernated := true) else old(spec)
      ensures outcome == if !present then Deleted
                         else if NeedsHibernation(old(spec), status, clock.hibernation) && !updated then Errored else Kept
    {
      if NeedsDeletion(spec, status, clock.deletion) {
        present := false;
        return Deleted;
      }
      if NeedsHibernation(spec, status, clock.hibernation) {
        if !updated {
          return Errored;
        }
        spec := spec.(hibernated := true);
      }
      return Kept;
    }

    /** `childrenOk`: every child was reconciled.  After a conflict the status computed from the old
        copy is written over whatever is there, except for the run ID. */
    method Reconcile(obs: Observation, newID: string, clock: Clock, childrenOk: bool, conflict: Option<Conflict>, updated: bool)
      returns (outcome: Outcome)
      modifies this
      ensures !old(present) || !childrenOk ==> present == old(present) && spec == old(spec) && status == old(status)
      ensures outcome == Gone <==> !old(present)
      ensures outcome == Deleted <==> old(present) && !present
      ensures old(present) && !childrenOk ==> outcome == Errored
      ensures old(present) && childrenOk ==>
                var found := if conflict.Some? then conflict.value.spec else old(spec);
                var mine := NextStatus(creation, old(spec), old(status), obs, newID, clock.status);
                if conflict.Some? && !conflict.value.retry.Rewritten? then
                  outcome == Errored && present && spec == found && status == conflict.value.status
                else
                  && status == (if conflict.Some? then mine.(runID := MergeRunID(mine.runID, conflict.value.status.runID)) else mine)
                  && present == !NeedsDeletion(found, status, clock.deletion)
                  && spec == (if present && updated && NeedsHibernation(found, status, clock.hibernation)
                              then found.(hibernated := true) else found)
                  && (present ==> outcome == if NeedsHibernation(found, status, clock.hibernation) && !updated then Errored else Kept)
    {
      if !present {
        return Gone;
      }
      var runID := status.runID;
      if spec.hibernated {
        runID := "";
      } else if runID == "" {
        runID := newID;
      }
      if !childrenOk {
        return Errored;
      }
      var newStatus := ComputeStatus(creation, spec, status, obs, runID, clock.status);
      if conflict.Some? {
        spec, status := conflict.value.spec, conflict.value.status;
        if conflict.value.retry.NotReread? {
          return Errored;
        }
        if newStatus.runID != "" && status.runID != "" {
          newStatus := newStatus.(runID := status.runID);
        }
        if conflict.value.retry.NotRewritten? {
          return Errored;
        }
      }
      status := newStatus;
      outcome := DeleteOrHibernate(clock, updated);
    }
  }

  /** A reconcile without conflict adds a round to the run it continues. */
  lemma ReconcileAddsRound(creation: Time, kind: SessionType, h: seq<Round>, r: Round)
    requires Run(creation, kind, h)
    requires UNSET < creation <= r.now && (h != [] ==> h[|h| - 1].now <= r.now) && r.spec.sessionType == kind
    requires r.status == NextStatus(creation, r.spec, Before(h, |h|), r.obs, r.newID, r.now)
    ensures Run(creation, kind, h + [r])
  {
    forall i | 0 <= i < |h + [r]|
      ensures Reconciled(creation, kind, h + [r], i)
    {
      assert Before(h + [r], i) == Before(h, i);
      if i < |h| {
        assert Reconciled(creation, kind, h, i);
        assert (h + [r])[i] == h[i];
      }
    }
  }

  /** A turn of the loop without conflict, with the run it continues: `c` holds the status that the
      run ends with, and a spec that anybody may have edited since.  The run goes on with the turn, and
      the turn deletes or hibernates the session exactly when it has earned it. */
  method ReconcileInRun(c: Cluster, ghost h: seq<Round>, obs: Observation, newID: string, clock: Clock, childrenOk: bool, updated: bool)
    returns (outcome: Outcome, ghost h': seq<Round>)
    requires c.present && Run(c.creation, c.spec.sessionType, h) && c.status == Before(h, |h|)
    requires UNSET < c.creation <= clock.status <= clock.deletion <= clock.hibernation
    requires h != [] ==> h[|h| - 1].now <= clock.status
    modifies c
    ensures c.spec.sessionType == old(c.spec.sessionType)
    ensures Run(c.creation, c.spec.sessionType, h') && c.status == Before(h', |h'|)
    ensures if childrenOk then |h'| == |h| + 1 && h'[..|h|] == h && h'[|h|].now == clock.status && h'[|h|].spec == old(c.spec)
            else h' == h && c.present && c.spec == old(c.spec)
    ensures childrenOk && c.spec.sessionType.Interactive? ==> (!c.present <==> DeletionEarned(h', |h'|, clock.deletion))
    ensures childrenOk && c.present ==>
              c.spec == if updated && c.spec.sessionType.Interactive? && !old(c.spec).hibernated
                           && CullingEarned(c.creation, h', |h'|, clock.hibernation)
                        then old(c.spec).(hibernated := true) else old(c.spec)
  {
    ghost var spec := c.spec;
    outcome := c.Reconcile(obs, newID, clock, childrenOk, None, updated);
    if !childrenOk {
      h' := h;
      return;
    }
    ghost var r := Round(clock.status, spec, obs, newID, c.status);
    ReconcileAddsRound(c.creation, spec.sessionType, h, r);
    h' := h + [r];
    if spec.sessionType.Interactive? {
      DeletionIff(c.creation, h', |h'|, clock.deletion);
    }
    CullingIff(c.creation, spec.sessionType, h', |h'|, clock.hibernation);
  }
}
