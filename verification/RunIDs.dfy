/** Run IDs when reconciles of one session race: every status write names the version of the resource
    it was computed from, and the API server refuses it if the resource has changed since. */
module RunIDs {
  import opened Reconciler

  /** The stored resource.  Every write gives it a new version. */
  datatype Resource = Resource(version: nat, hibernated: bool, runID: string)

  datatype Worker =
    | Idle
    | Read(seen: Resource)                                       // holds a copy
    | Computed(seen: Resource, runID: string)                    // new status at hand
    | Rebuffed(seen: Resource, runID: string)                    // first write failed
    | Retrying(seen: Resource, again: Resource, runID: string)   // and the resource was read again

  datatype System = System(stored: Resource, workers: seq<Worker>)

  /** A write can reach the server although the worker is told that it failed. */
  datatype Delivery = Confirmed | Unconfirmed | Undelivered

  datatype Event =
    | Get(t: nat)
    | Touch(t: nat)                        // writes the status unchanged: first status, finalizer, deletion
    | Compute(t: nat, newID: string)
    | Write(t: nat, d: Delivery)
    | Reread(t: nat)
    | Rewrite(t: nat, d: Delivery)
    | GiveUp(t: nat)
    | Edit(hibernated: bool)               // by a user, or by the operator itself

  predicate Allowed(s: System, e: Event) {
    match e
    case Get(t) => t < |s.workers|
    case Touch(t) => t < |s.workers| && s.workers[t].Read? && s.workers[t].seen.version == s.stored.version
    case Compute(t, newID) => t < |s.workers| && s.workers[t].Read? && newID != ""
    case Write(t, d) =>
      && t < |s.workers| && s.workers[t].Computed?
      && (!d.Undelivered? ==> s.workers[t].seen.version == s.stored.version)
    case Reread(t) => t < |s.workers| && s.workers[t].Rebuffed?
    case Rewrite(t, d) =>
      && t < |s.workers| && s.workers[t].Retrying?
      && (!d.Undelivered? ==> s.workers[t].again.version == s.stored.version)
    case GiveUp(t) => t < |s.workers|
    case Edit(_) => true
  }

  function Put(r: Resource, runID: string): Resource {
    Resource(r.version + 1, r.hibernated, runID)
  }

  function Step(s: System, e: Event): System
    requires Allowed(s, e)
  {
    match e
    case Get(t) => s.(workers := s.workers[t := Read(s.stored)])
    case Touch(t) =>
      var now := Put(s.stored, s.workers[t].seen.runID);
      System(now, s.workers[t := Read(now)])
    case Compute(t, newID) =>
      var seen := s.workers[t].seen;
      s.(workers := s.workers[t := Computed(seen, if seen.hibernated then "" else if seen.runID == "" then newID else seen.runID)])
    case Write(t, d) =>
      var w := s.workers[t];
      var now := if d.Undelivered? then s.stored else Put(s.stored, w.runID);
      System(now, s.workers[t := if d.Confirmed? then Idle else Rebuffed(w.seen, w.runID)])
    case Reread(t) =>
      var w := s.workers[t];
      s.(workers := s.workers[t := Retrying(w.seen, s.stored, MergeRunID(w.runID, s.stored.runID))])
    case Rewrite(t, d) =>
      var w := s.workers[t];
      System(if d.Undelivered? then s.stored else Put(s.stored, w.runID), s.workers[t := Idle])
    case GiveUp(t) => s.(workers := s.workers[t := Idle])
    case Edit(hibernated) => s.(stored := Resource(s.stored.version + 1, hibernated, s.stored.runID))
  }

  ghost predicate Run(run: seq<System>, events: seq<Event>) {
    && |run| == |events| + 1
    && (forall t :: 0 <= t < |run[0].workers| ==> run[0].workers[t] == Idle)
    && forall k {:trigger events[k]} :: 0 <= k < |events| ==>
         Allowed(run[k], events[k]) && run[k + 1] == Step(run[k], events[k])
  }

  // ---------------------------------------------------------------- what every step keeps

  /** A copy is no newer than the resource, and as good as it while the version is the same. */
  predicate Copy(r: Resource, stored: Resource) {
    r.version <= stored.version && (r.version == stored.version ==> r == stored)
  }

  /** The run ID about to be written, computed from `seen`, when `current` is the latest known. */
  predicate Fits(seen: Resource, current: Resource, runID: string) {
    if seen.hibernated then runID == ""
    else runID != "" && (current.runID != "" ==> runID == current.runID)
  }

  predicate WorkerOk(w: Worker, stored: Resource) {
    match w
    case Idle => true
    case Read(seen) => Copy(seen, stored)
    case Computed(seen, runID) => Copy(seen, stored) && Fits(seen, seen, runID)
    case Rebuffed(seen, runID) => Copy(seen, stored) && Fits(seen, seen, runID)
    case Retrying(seen, again, runID) => Copy(again, stored) && Fits(seen, again, runID)
  }

  ghost predicate Inv(s: System) {
    forall t :: 0 <= t < |s.workers| ==> WorkerOk(s.workers[t], s.stored)
  }

  lemma StepKeepsInv(s: System, e: Event)
    requires Inv(s) && Allowed(s, e)
    ensures Inv(Step(s, e))
  {
    var s' := Step(s, e);
    forall t | 0 <= t < |s'.workers|
      ensures WorkerOk(s'.workers[t], s'.stored)
    {
      assert WorkerOk(s.workers[t], s.stored);
    }
  }

  lemma {:induction false} RunKeepsInv(run: seq<System>, events: seq<Event>, k: nat)
    requires Run(run, events) && k < |run|
    ensures Inv(run[k])
  {
    if k > 0 {
      RunKeepsInv(run, events, k - 1);
      StepKeepsInv(run[k - 1], events[k - 1]);
      assert run[k - 1 + 1] == Step(run[k - 1], events[k - 1]);
    }
  }

  // ---------------------------------------------------------------- stability

  /** What the worker whose write this is saw when it read the resource. */
  function Snapshot(s: System, e: Event): Resource
    requires Allowed(s, e) && (e.Write? || e.Rewrite?)
  {
    s.workers[e.t].seen
  }

  /** A stored run ID changes only through a status write of a reconcile that saw the session
      hibernated, and then it is cleared. */
  lemma RunIDStable(run: seq<System>, events: seq<Event>, k: nat)
    requires Run(run, events) && k < |events|
    requires run[k].stored.runID != "" && run[k + 1].stored.runID != run[k].stored.runID
    ensures events[k].Write? || events[k].Rewrite?
    ensures Snapshot(run[k], events[k]).hibernated && run[k + 1].stored.runID == ""
  {
    RunKeepsInv(run, events, k);
    var s, e := run[k], events[k];
    if !e.Edit? {
      assert WorkerOk(s.workers[e.t], s.stored);
    }
  }

  /** While no reconcile has seen it hibernated, a session keeps its run ID, whatever the races. */
  lemma {:induction false} RunIDKept(run: seq<System>, events: seq<Event>, i: nat, j: nat)
    requires Run(run, events) && i <= j < |run| && run[i].stored.runID != ""
    requires forall k {:trigger events[k]} :: i <= k < j && (events[k].Write? || events[k].Rewrite?) ==>
               Allowed(run[k], events[k]) && !Snapshot(run[k], events[k]).hibernated
    ensures run[j].stored.runID == run[i].stored.runID
  {
    if i < j {
      RunIDKept(run, events, i, j - 1);
      if run[j].stored.runID != run[j - 1].stored.runID {
        RunIDStable(run, events, j - 1);
        assert false;
      }
    }
  }

  // ---------------------------------------------------------------- what one reconcile achieves

  /** Undisturbed, a reconcile stores the run ID the session should have: none while hibernated, the
      old one if there is one, and the one it drew if not. */
  lemma UndisturbedReconcile(s: System, t: nat, newID: string) returns (s': System)
    requires t < |s.workers| && newID != ""
    ensures Allowed(s, Get(t))
    ensures var got := Step(s, Get(t));
            && Allowed(got, Compute(t, newID))
            && Allowed(Step(got, Compute(t, newID)), Write(t, Confirmed))
            && s' == Step(Step(got, Compute(t, newID)), Write(t, Confirmed))
    ensures s'.stored.runID == if s.stored.hibernated then "" else if s.stored.runID != "" then s.stored.runID else newID
    ensures s'.stored.hibernated == s.stored.hibernated && s'.workers[t] == Idle
  {
    s' := Step(Step(Step(s, Get(t)), Compute(t, newID)), Write(t, Confirmed));
  }
}
