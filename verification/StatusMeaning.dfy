/** What a computed status says, told by the spec and the observations themselves. */
module StatusMeaning {
  import opened Expiry
  import opened Session
  import opened Wrappers

  // ---------------------------------------------------------------- state

  /** The workload has been taken down on request. */
  predicate Down(spec: Spec, obs: Observation) {
    spec.hibernated && (spec.sessionType == Interactive || obs.jobSuspended)
  }

  predicate Up(spec: Spec, obs: Observation) {
    && obs.pod.Some? && obs.pod.value.ready
    && (spec.sessionType == Interactive ==> obs.statefulSetReady)
    && (spec.sessionType == NonInteractive ==> obs.jobReady)
  }

  predicate Finished(obs: Observation) {
    obs.jobSucceeded || (obs.pod.Some? && obs.pod.value.completed)
  }

  predicate OverQuota(obs: Observation) {
    obs.pod == None && obs.quotaExceeded
  }

  /** Neither down nor broken, but not there yet either. */
  predicate Waiting(spec: Spec, obs: Observation) {
    !Down(spec, obs) && obs.failure == "" && !Up(spec, obs) && !Finished(obs)
  }

  /** The pod's events report a scheduling failure and no node found since. */
  ghost predicate Unscheduled(spec: Spec, obs: Observation) {
    && Waiting(spec, obs) && obs.podEvents.Some?
    && Reported(obs.podEvents.value, "FailedScheduling") && !FoundNode(obs.podEvents.value)
  }

  /** And they have done so for ten minutes. */
  ghost predicate NeverScheduled(spec: Spec, prev: Status, obs: Observation, now: Time) {
    Unscheduled(spec, obs) && prev.failedSchedulingSince != 0 && now - prev.failedSchedulingSince >= 600
  }

  lemma WaitingExact(spec: Spec, obs: Observation)
    ensures Waiting(spec, obs) <==> StateOf(spec, obs) == NotReady
  {
  }

  lemma NeverScheduledExact(spec: Spec, prev: Status, obs: Observation, now: Time)
    ensures NeverScheduled(spec, prev, obs, now) <==> InferenceOf(spec, prev, obs, now).FinallyFailed?
  {
    if obs.podEvents.Some? {
      InferenceExact(obs.podEvents.value, prev.failedSchedulingSince, now);
    }
  }

  /** Each state, and exactly when it is reported. */
  lemma StateExact(creation: Time, spec: Spec, prev: Status, obs: Observation, runID: string, now: Time)
    ensures var state := StatusOf(creation, spec, prev, obs, runID, now).state;
            && (state == Hibernated <==> !OverQuota(obs) && Down(spec, obs))
            && (state == Running <==> !OverQuota(obs) && !Down(spec, obs) && obs.failure == "" && Up(spec, obs))
            && (state == Succeeded <==>
                  !OverQuota(obs) && !Down(spec, obs) && obs.failure == "" && !Up(spec, obs) && Finished(obs))
            && (state == Failed <==>
                  || OverQuota(obs)
                  || (!Down(spec, obs) && obs.failure != "")
                  || NeverScheduled(spec, prev, obs, now))
            && (state == NotReady <==>
                  !OverQuota(obs) && Waiting(spec, obs) && !NeverScheduled(spec, prev, obs, now))
  {
    NeverScheduledExact(spec, prev, obs, now);
    WaitingExact(spec, obs);
  }

  ghost predicate NothingWrong(spec: Spec, prev: Status, obs: Observation, now: Time) {
    && (Down(spec, obs) || obs.failure == "")
    && !(Waiting(spec, obs) && obs.podEvents == None)
    && !NeverScheduled(spec, prev, obs, now)
  }

  /** The error names the first thing wrong, and the warning only if nothing is. */
  lemma ErrorExact(creation: Time, spec: Spec, prev: Status, obs: Observation, runID: string, now: Time)
    ensures var error := StatusOf(creation, spec, prev, obs, runID, now).error;
            && (OverQuota(obs) ==> error == "Quota exceeded")
            && (!OverQuota(obs) && !Down(spec, obs) && obs.failure != "" ==> error == obs.failure)
            && (!OverQuota(obs) && NeverScheduled(spec, prev, obs, now) ==>
                  exists i :: 0 <= i < |obs.podEvents.value| && IsLast(obs.podEvents.value, i, "FailedScheduling") &&
                    error == "failed scheduling: " + obs.podEvents.value[i].message)
            && (!OverQuota(obs) && Waiting(spec, obs) && obs.podEvents == None ==> error == "cannot get pod events")
            && (!OverQuota(obs) && NothingWrong(spec, prev, obs, now) ==> error == obs.warning)
  {
    NeverScheduledExact(spec, prev, obs, now);
    WaitingExact(spec, obs);
    if NeverScheduled(spec, prev, obs, now) {
      LastOfExact(obs.podEvents.value, "FailedScheduling");
      assert InferenceOf(spec, prev, obs, now).message == InferFromEvents(obs.podEvents.value, prev.failedSchedulingSince, now).message;
    }
  }

  // ---------------------------------------------------------------- scaling and idleness

  /** The StatefulSet goes from zero replicas to one, or from one to zero. */
  predicate Rescales(spec: Spec, obs: Observation) {
    && spec.sessionType == Interactive && obs.statefulSet.Present? && obs.statefulSet.replicas.Some?
    && obs.statefulSet.replicas.value == if spec.hibernated then 1 else 0
  }

  lemma RescalesExact(spec: Spec, obs: Observation)
    ensures ScalingOf(spec, obs) == if !Rescales(spec, obs) then Unscaled else if spec.hibernated then Suspended else Resumed
  {
  }

  lemma ReadingExact(creation: Time, spec: Spec, prev: Status, obs: Observation, runID: string, now: Time)
    ensures TakesReading(spec, prev, obs, now) <==>
            ReadingTaken(StatusOf(creation, spec, prev, obs, runID, now).state, obs, now)
    ensures IdleReading(spec, obs) <==> BelowThreshold(spec, obs)
  {
  }

  /** An interactive session is idle exactly while readings are low; the stopwatch starts with the first
      such reading and is reset by any other reading, or by scaling. */
  lemma IdleExact(creation: Time, spec: Spec, prev: Status, obs: Observation, runID: string, now: Time)
    requires spec.sessionType == Interactive
    ensures var s := StatusOf(creation, spec, prev, obs, runID, now);
            && (s.idle <==> ReadingTaken(s.state, obs, now) && BelowThreshold(spec, obs))
            && (Rescales(spec, obs) ==> s.idleSince == 0)
            && (!Rescales(spec, obs) && !ReadingTaken(s.state, obs, now) ==> s.idleSince == prev.idleSince)
            && (!Rescales(spec, obs) && ReadingTaken(s.state, obs, now) ==>
                  s.idleSince == if !BelowThreshold(spec, obs) then 0 else if prev.idleSince == 0 then now else prev.idleSince)
  {
    ReadingExact(creation, spec, prev, obs, runID, now);
    RescalesExact(spec, obs);
  }

  /** A batch job also counts as idle once it has ended and its pod is still there. */
  lemma JobIdleExact(creation: Time, spec: Spec, prev: Status, obs: Observation, runID: string, now: Time)
    requires spec.sessionType == NonInteractive
    ensures var s := StatusOf(creation, spec, prev, obs, runID, now);
            var ended := obs.pod.Some? && (s.state == Succeeded || s.state == Failed);
            && (s.idle <==> ended || (ReadingTaken(s.state, obs, now) && BelowThreshold(spec, obs)))
            && (ended ==> s.idleSince == if prev.idleSince == 0 then now else prev.idleSince)
            && (!ended && !ReadingTaken(s.state, obs, now) ==> s.idleSince == prev.idleSince)
            && (ReadingTaken(s.state, obs, now) ==>
                  s.idleSince == if !BelowThreshold(spec, obs) then 0 else if prev.idleSince == 0 then now else prev.idleSince)
  {
    ReadingExact(creation, spec, prev, obs, runID, now);
    RescalesExact(spec, obs);
  }

  // ---------------------------------------------------------------- what follows

  /** When the operator deletes. */
  lemma DeletionExact(spec: Spec, s: Status, now: Time)
    ensures spec.sessionType == Interactive ==>
              (NeedsDeletion(spec, s, now) <==>
                s.state == Hibernated && spec.culling.maxHibernated != 0 && now - s.hibernatedSince > spec.culling.maxHibernated)
    ensures spec.sessionType == NonInteractive ==>
              (NeedsDeletion(spec, s, now) <==>
                && (s.state == Failed || s.state == Succeeded) && s.idleSince != 0
                && (now - s.idleSince > spec.culling.maxHibernated ||
                    (s.failingSince != 0 && now - s.failingSince > spec.culling.maxHibernated)))
  {
  }
}
