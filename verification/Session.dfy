/** A session's custom resource, and the status one reconcile computes for it from the previous
    status and what it observes in the cluster. */
module Session {
  import opened Expiry
  import opened Wrappers

  datatype SessionType = Interactive | NonInteractive

  datatype Strategy = Never | Always | WhenFailedOrHibernated | Unknown

  datatype State = Running | Failed | Hibernated | NotReady | RunningDegraded | Succeeded

  /** Durations in seconds; the parser lets negative ones through. */
  datatype Culling = Culling(
    maxAge: int,
    maxStarting: int,
    maxFailed: int,
    maxIdle: int,
    maxHibernated: int,
    lastInteraction: Time,
    cpuIdleThreshold: int)

  datatype Spec = Spec(sessionType: SessionType, hibernated: bool, strategy: Strategy, culling: Culling)

  datatype Status = Status(
    state: State,
    idle: bool,
    idleSince: Time,
    failingSince: Time,
    failedSchedulingSince: Time,
    hibernatedSince: Time,
    willHibernateAt: Time,
    runID: string,
    error: string)

  /** What the API server fills in when the resource is created. */
  const FIRST_STATUS := Status(NotReady, false, UNSET, UNSET, UNSET, UNSET, UNSET, "", "")

  // ---------------------------------------------------------------- observations

  /** The StatefulSet as found, before the reconcile patches it. */
  datatype StatefulSet = Absent | Present(replicas: Option<int>)

  datatype Pod = Pod(ready: bool, completed: bool, startedAt: Option<Time>)

  datatype Event = Event(reason: string, at: Time, message: string)

  /** What a reconcile gets to see.  `jobSuspended` and `jobReady` are about the Job a non-interactive
      session runs as, `failure` is what the pod, volumes, service, ingress and Job say is wrong. */
  datatype Observation = Observation(
    statefulSet: StatefulSet,
    statefulSetReady: bool,
    jobSuspended: bool,
    jobReady: bool,
    jobSucceeded: bool,
    pod: Option<Pod>,
    failure: string,
    cpu: Option<int>,
    podEvents: Option<seq<Event>>,
    quotaExceeded: bool,
    warning: string)

  // ---------------------------------------------------------------- scaling the StatefulSet

  datatype Scaling = Unscaled | Resumed | Suspended

  function Replicas(spec: Spec): int {
    if spec.hibernated then 0 else 1
  }

  /** What the patch does to the replicas it finds; this alone triggers the status callback. */
  function ScalingOf(spec: Spec, obs: Observation): Scaling {
    if spec.sessionType.Interactive? && obs.statefulSet.Present? && obs.statefulSet.replicas.Some? then
      var found := obs.statefulSet.replicas.value;
      if found == 0 && Replicas(spec) == 1 then Resumed
      else if found == 1 && Replicas(spec) == 0 then Suspended
      else Unscaled
    else Unscaled
  }

  // ---------------------------------------------------------------- state

  predicate IsRunning(spec: Spec, obs: Observation) {
    && (if spec.sessionType.Interactive? then obs.statefulSetReady else obs.jobReady)
    && obs.pod.Some? && obs.pod.value.ready
  }

  /** The patched StatefulSet always has the replicas the spec asks for. */
  function StateOf(spec: Spec, obs: Observation): State {
    if spec.hibernated && (spec.sessionType.Interactive? || obs.jobSuspended) then Hibernated
    else if obs.failure != "" then Failed
    else if IsRunning(spec, obs) then Running
    else if (obs.pod.Some? && obs.pod.value.completed) || obs.jobSucceeded then Succeeded
    else NotReady
  }

  // ---------------------------------------------------------------- scheduling events

  const FAILED_SCHEDULING := "FailedScheduling"
  const SCHEDULED := "Scheduled"

  /** Ten minutes. */
  const MAX_WAIT_FOR_SCHEDULING := 600

  datatype Inference = Nothing | InitiallyFailed | TemporaryFailed | FinallyFailed(message: string) | IsScheduled

  function LastOf(events: seq<Event>, reason: string): Option<Event> {
    if events == [] then None
    else
      var last := |events| - 1;
      if events[last].reason == reason then Some(events[last]) else LastOf(events[..last], reason)
  }

  predicate IsLast(events: seq<Event>, i: nat, reason: string)
    requires i < |events|
  {
    events[i].reason == reason && forall j :: i < j < |events| ==> events[j].reason != reason
  }

  /** It is the last event with this reason. */
  lemma {:induction false} LastOfExact(events: seq<Event>, reason: string)
    ensures match LastOf(events, reason)
            case None => forall i :: 0 <= i < |events| ==> events[i].reason != reason
            case Some(e) => exists i :: 0 <= i < |events| && events[i] == e && IsLast(events, i, reason)
  {
    if events != [] && events[|events| - 1].reason != reason {
      var front := events[..|events| - 1];
      LastOfExact(front, reason);
      if LastOf(front, reason).Some? {
        var i :| 0 <= i < |front| && front[i] == LastOf(front, reason).value && IsLast(front, i, reason);
        assert IsLast(events, i, reason);
      }
    } else if events != [] {
      assert IsLast(events, |events| - 1, reason);
    }
  }

  function At(e: Option<Event>): Time {
    if e.Some? then e.value.at else UNSET
  }

  function Infer(scheduled: Option<Event>, failed: Option<Event>, since: Time, now: Time): Inference {
    if At(scheduled) != UNSET && At(scheduled) > At(failed) then IsScheduled
    else if failed.None? then Nothing
    else if since == UNSET then InitiallyFailed
    else if now - since >= MAX_WAIT_FOR_SCHEDULING then FinallyFailed("failed scheduling: " + failed.value.message)
    else TemporaryFailed
  }

  function InferFromEvents(events: seq<Event>, since: Time, now: Time): Inference {
    Infer(LastOf(events, SCHEDULED), LastOf(events, FAILED_SCHEDULING), since, now)
  }

  /** The last Scheduled event is later than the last FailedScheduling event, if there is one. */
  ghost predicate FoundNode(events: seq<Event>) {
    exists i :: 0 <= i < |events| && IsLast(events, i, SCHEDULED) && events[i].at != UNSET &&
      forall j :: 0 <= j < |events| && IsLast(events, j, FAILED_SCHEDULING) ==> events[j].at < events[i].at
  }

  ghost predicate Reported(events: seq<Event>, reason: string) {
    exists i :: 0 <= i < |events| && events[i].reason == reason
  }

  lemma LastUnique(events: seq<Event>, i: nat, j: nat, reason: string)
    requires i < |events| && j < |events| && IsLast(events, i, reason) && IsLast(events, j, reason)
    ensures i == j
  {
  }

  lemma FoundNodeExact(events: seq<Event>)
    ensures FoundNode(events) <==>
            At(LastOf(events, SCHEDULED)) != UNSET && At(LastOf(events, SCHEDULED)) > At(LastOf(events, FAILED_SCHEDULING))
  {
    LastOfExact(events, SCHEDULED);
    LastOfExact(events, FAILED_SCHEDULING);
    var scheduled, failed := LastOf(events, SCHEDULED), LastOf(events, FAILED_SCHEDULING);
    if scheduled.Some? {
      var i :| 0 <= i < |events| && events[i] == scheduled.value && IsLast(events, i, SCHEDULED);
      forall j | 0 <= j < |events| && IsLast(events, j, SCHEDULED)
        ensures i == j
      {
        LastUnique(events, i, j, SCHEDULED);
      }
      if failed.Some? {
        var k :| 0 <= k < |events| && events[k] == failed.value && IsLast(events, k, FAILED_SCHEDULING);
        forall j | 0 <= j < |events| && IsLast(events, j, FAILED_SCHEDULING)
          ensures k == j
        {
          LastUnique(events, k, j, FAILED_SCHEDULING);
        }
      }
    }
  }

  /** The inference, told by the events themselves: a later Scheduled event wins; else a reported
      failure starts the stopwatch, and is final ten minutes after. */
  lemma InferenceExact(events: seq<Event>, since: Time, now: Time)
    ensures var r := InferFromEvents(events, since, now);
            && (r == IsScheduled <==> FoundNode(events))
            && (r == Nothing <==> !FoundNode(events) && !Reported(events, FAILED_SCHEDULING))
            && (r == InitiallyFailed <==> !FoundNode(events) && Reported(events, FAILED_SCHEDULING) && since == UNSET)
            && (r.FinallyFailed? <==> !FoundNode(events) && Reported(events, FAILED_SCHEDULING) && since != UNSET &&
                                      now - since >= MAX_WAIT_FOR_SCHEDULING)
  {
    FoundNodeExact(events);
    LastOfExact(events, FAILED_SCHEDULING);
  }

  /** The loop over the events, as the operator runs it. */
  method EventsInferredState(events: seq<Event>, since: Time, now: Time) returns (r: Inference)
    ensures r == InferFromEvents(events, since, now)
  {
    var scheduled: Option<Event>, failed: Option<Event> := None, None;
    for i := 0 to |events|
      invariant scheduled == LastOf(events[..i], SCHEDULED)
      invariant failed == LastOf(events[..i], FAILED_SCHEDULING)
    {
      assert events[..i + 1][..i] == events[..i];
      if events[i].reason == SCHEDULED {
        scheduled := Some(events[i]);
      }
      if events[i].reason == FAILED_SCHEDULING {
        failed := Some(events[i]);
      }
    }
    assert events[..|events|] == events;
    r := Infer(scheduled, failed, since, now);
  }

  /** Only a session that would be NotReady is looked at. */
  function InferenceOf(spec: Spec, prev: Status, obs: Observation, now: Time): Inference {
    if StateOf(spec, obs) == NotReady && obs.podEvents.Some?
    then InferFromEvents(obs.podEvents.value, prev.failedSchedulingSince, now)
    else Nothing
  }

  function InferredState(spec: Spec, prev: Status, obs: Observation, now: Time): State {
    if InferenceOf(spec, prev, obs, now).FinallyFailed? then Failed else StateOf(spec, obs)
  }

  predicate Quota(obs: Observation) {
    obs.pod.None? && obs.quotaExceeded
  }

  /** An exceeded quota overrides every state, even Hibernated. */
  function FinalState(spec: Spec, prev: Status, obs: Observation, now: Time): State {
    if Quota(obs) then Failed else InferredState(spec, prev, obs, now)
  }

  // ---------------------------------------------------------------- idleness

  /** Fresh containers have no accurate metrics yet. */
  const FRESH_CONTAINER_AGE := 15

  predicate OldEnough(pod: Pod, now: Time) {
    pod.startedAt.Some? && now - pod.startedAt.value >= FRESH_CONTAINER_AGE
  }

  /** A reading of the CPU is taken of a running session whose container has been up for 15 seconds. */
  predicate ReadingTaken(state: State, obs: Observation, now: Time) {
    && state == Running && obs.pod.Some?
    && obs.pod.value.startedAt.Some? && now - obs.pod.value.startedAt.value >= 15
  }

  /** The reading is there and below the threshold. */
  predicate BelowThreshold(spec: Spec, obs: Observation) {
    obs.cpu.Some? && obs.cpu.value < spec.culling.cpuIdleThreshold
  }

  /** The reconcile asks for a CPU reading. */
  predicate TakesReading(spec: Spec, prev: Status, obs: Observation, now: Time) {
    obs.pod.Some? && InferredState(spec, prev, obs, now) == Running && OldEnough(obs.pod.value, now)
  }

  /** A missing reading is not idle. */
  predicate IdleReading(spec: Spec, obs: Observation) {
    obs.cpu.Some? && obs.cpu.value < spec.culling.cpuIdleThreshold
  }

  /** Start a stopwatch, keep it running, or reset it. */
  function Since(on: bool, since: Time, now: Time): Time {
    if !on then UNSET else if since == UNSET then now else since
  }

  datatype Idleness = Idleness(since: Time, idle: bool)

  function IdlenessOf(spec: Spec, prev: Status, obs: Observation, now: Time): Idleness {
    if obs.pod.None? then Idleness(prev.idleSince, false)
    else
      var state := InferredState(spec, prev, obs, now);
      var done := spec.sessionType.NonInteractive? && (state == Succeeded || state == Failed);
      var idle := IdleReading(spec, obs);
      var read := if TakesReading(spec, prev, obs, now) then Idleness(Since(idle, prev.idleSince, now), idle)
                  else Idleness(prev.idleSince, false);
      if done then Idleness(if read.since == UNSET then now else read.since, true) else read
  }

  // ---------------------------------------------------------------- deadlines

  function DeadlineByAge(creation: Time, c: Culling): Time {
    if c.maxAge > 0 then creation + c.maxAge else UNSET
  }

  function DeadlineByStarting(creation: Time, prev: Status, c: Culling): Time {
    if c.maxStarting > 0 && prev.state == NotReady then creation + c.maxStarting else UNSET
  }

  function DeadlineByFailing(prev: Status, c: Culling): Time {
    if prev.failingSince != UNSET && c.maxFailed > 0 then prev.failingSince + c.maxFailed else UNSET
  }

  function DeadlineByIdling(prev: Status, c: Culling): Time {
    var last :=
      if c.lastInteraction != UNSET && prev.idleSince != UNSET && c.lastInteraction > prev.idleSince
      then c.lastInteraction else prev.idleSince;
    if last != UNSET && c.maxIdle > 0 then last + c.maxIdle else UNSET
  }

  function Deadlines(creation: Time, prev: Status, c: Culling): seq<Time> {
    [DeadlineByAge(creation, c), DeadlineByStarting(creation, prev, c), DeadlineByFailing(prev, c), DeadlineByIdling(prev, c)]
  }

  /** `d` is the least deadline that is set, or not set if none is. */
  predicate IsEarliest(ds: seq<Time>, d: Time) {
    && (d == UNSET ==> forall i :: 0 <= i < |ds| ==> ds[i] == UNSET)
    && (d != UNSET ==> d in ds && forall i :: 0 <= i < |ds| && ds[i] != UNSET ==> d <= ds[i])
  }

  function Earliest(ds: seq<Time>): (d: Time)
    ensures IsEarliest(ds, d)
  {
    if ds == [] then UNSET
    else
      var before, last := Earliest(ds[..|ds| - 1]), ds[|ds| - 1];
      if before == UNSET || (last != UNSET && last < before) then last else before
  }

  lemma EarliestUnique(ds: seq<Time>, d: Time, e: Time)
    requires IsEarliest(ds, d) && IsEarliest(ds, e)
    ensures d == e
  {
  }

  /** `d` is the date by which one of the four limits, counted from `from`, runs out. */
  predicate Limits(enabled: bool, from: Time, duration: int, d: Time) {
    enabled && duration > 0 ==> d != 0 && d <= from + duration
  }

  predicate Idles(prev: Status) {
    prev.idleSince != 0
  }

  function LastActive(prev: Status, c: Culling): Time {
    if prev.idleSince < c.lastInteraction then c.lastInteraction else prev.idleSince
  }

  /** The date keeps within every limit that is enabled, is one of them, and is not set if there is
      none: age, starting, failing and idling, the latter three by the previous status. */
  predicate IsDate(creation: Time, prev: Status, c: Culling, d: Time) {
    && Limits(true, creation, c.maxAge, d)
    && Limits(prev.state == NotReady, creation, c.maxStarting, d)
    && Limits(prev.failingSince != 0, prev.failingSince, c.maxFailed, d)
    && Limits(Idles(prev), LastActive(prev, c), c.maxIdle, d)
    && (d != 0 ==>
          || (c.maxAge > 0 && d == creation + c.maxAge)
          || (c.maxStarting > 0 && prev.state == NotReady && d == creation + c.maxStarting)
          || (c.maxFailed > 0 && prev.failingSince != 0 && d == prev.failingSince + c.maxFailed)
          || (c.maxIdle > 0 && Idles(prev) && d == LastActive(prev, c) + c.maxIdle))
  }

  lemma DateExact(creation: Time, prev: Status, c: Culling)
    ensures IsDate(creation, prev, c, Earliest(Deadlines(creation, prev, c)))
  {
    var ds := Deadlines(creation, prev, c);
    var d := Earliest(ds);
    assert ds[0] == DeadlineByAge(creation, c) && ds[1] == DeadlineByStarting(creation, prev, c);
    assert ds[2] == DeadlineByFailing(prev, c) && ds[3] == DeadlineByIdling(prev, c);
  }

  /** There is one such date only. */
  lemma DateUnique(creation: Time, prev: Status, c: Culling, d: Time, e: Time)
    requires UNSET < creation && IsDate(creation, prev, c, d) && IsDate(creation, prev, c, e)
    ensures d == e
  {
  }

  lemma EarliestNext(ds: seq<Time>, i: nat, d: Time)
    requires i < |ds| && IsEarliest(ds[..i], d)
    ensures IsEarliest(ds[..i + 1], if d == UNSET || (ds[i] != UNSET && ds[i] < d) then ds[i] else d)
  {
    var front, more := ds[..i], ds[..i + 1];
    assert more[i] == ds[i] && forall j :: 0 <= j < i ==> more[j] == front[j];
    assert d != UNSET ==> d in more;
  }

  /** The loop over the deadlines, as the operator runs it. */
  method CalculateHibernationDate(creation: Time, prev: Status, c: Culling) returns (d: Time)
    ensures IsDate(creation, prev, c, d)
    ensures d == Earliest(Deadlines(creation, prev, c))
  {
    var ds := Deadlines(creation, prev, c);
    d := UNSET;
    for i := 0 to |ds|
      invariant IsEarliest(ds[..i], d)
    {
      EarliestNext(ds, i, d);
      if d == UNSET || (ds[i] != UNSET && ds[i] < d) {
        d := ds[i];
      }
    }
    assert ds[..|ds|] == ds;
    EarliestUnique(ds, d, Earliest(ds));
    DateExact(creation, prev, c);
  }

  // ---------------------------------------------------------------- run ID

  function RunIDFor(spec: Spec, stored: string, newID: string): string {
    if spec.hibernated then "" else if stored == "" then newID else stored
  }

  // ---------------------------------------------------------------- status

  /** The scale callback has the last word on the time stamps. */
  function AfterScaling(scaling: Scaling, s: Status, now: Time): Status {
    match scaling
    case Unscaled => s
    case Resumed =>
      s.(idleSince := UNSET, failingSince := UNSET, failedSchedulingSince := UNSET, hibernatedSince := UNSET)
    case Suspended =>
      s.(idleSince := UNSET, failingSince := UNSET, failedSchedulingSince := UNSET, hibernatedSince := now)
  }

  /** As the scheduling events leave it. */
  function SchedulingSince(spec: Spec, prev: Status, obs: Observation, now: Time): Time {
    match InferenceOf(spec, prev, obs, now)
    case InitiallyFailed => now
    case IsScheduled => UNSET
    case _ => prev.failedSchedulingSince
  }

  function FailedSchedulingSince(spec: Spec, prev: Status, obs: Observation, now: Time): Time {
    var state := FinalState(spec, prev, obs, now);
    if state == Hibernated || state == Running || state == Succeeded then UNSET else SchedulingSince(spec, prev, obs, now)
  }

  const EVENTS_UNAVAILABLE := "cannot get pod events"
  const QUOTA_EXCEEDED := "Quota exceeded"

  function InferredMessage(spec: Spec, prev: Status, obs: Observation, now: Time): string {
    var inference := InferenceOf(spec, prev, obs, now);
    if inference.FinallyFailed? then inference.message
    else if StateOf(spec, obs) == NotReady && obs.podEvents.None? then EVENTS_UNAVAILABLE
    else if StateOf(spec, obs) == Failed then obs.failure
    else ""
  }

  function ErrorMessage(spec: Spec, prev: Status, obs: Observation, now: Time): string {
    var message := if Quota(obs) then QUOTA_EXCEEDED else InferredMessage(spec, prev, obs, now);
    if message == "" then obs.warning else message
  }

  function StatusOf(creation: Time, spec: Spec, prev: Status, obs: Observation, runID: string, now: Time): Status {
    var state := FinalState(spec, prev, obs, now);
    var idleness := IdlenessOf(spec, prev, obs, now);
    AfterScaling(ScalingOf(spec, obs),
                 Status(state,
                        idleness.idle,
                        idleness.since,
                        Since(state == Failed, prev.failingSince, now),
                        FailedSchedulingSince(spec, prev, obs, now),
                        Since(spec.hibernated, prev.hibernatedSince, now),
                        Earliest(Deadlines(creation, prev, spec.culling)),
                        runID,
                        ErrorMessage(spec, prev, obs, now)),
                 now)
  }

  // The computation step by step, as the operator runs it.

  method CheckEvents(spec: Spec, prev: Status, obs: Observation, now: Time)
    returns (state: State, failedSchedulingSince: Time, error: string)
    ensures state == InferredState(spec, prev, obs, now)
    ensures failedSchedulingSince == SchedulingSince(spec, prev, obs, now)
    ensures error == InferredMessage(spec, prev, obs, now)
  {
    state := StateOf(spec, obs);
    error := if state == Failed then obs.failure else "";
    failedSchedulingSince := prev.failedSchedulingSince;
    if state == NotReady {
      if obs.podEvents.None? {
        error := EVENTS_UNAVAILABLE;
      } else {
        var inference := EventsInferredState(obs.podEvents.value, prev.failedSchedulingSince, now);
        match inference
        case FinallyFailed(message) => state, error := Failed, message;
        case InitiallyFailed => failedSchedulingSince := now;
        case IsScheduled => failedSchedulingSince := UNSET;
        case _ =>
      }
    }
  }

  method CheckIdleness(spec: Spec, prev: Status, obs: Observation, state: State, now: Time)
    returns (idle: bool, idleSince: Time)
    requires state == InferredState(spec, prev, obs, now)
    ensures Idleness(idleSince, idle) == IdlenessOf(spec, prev, obs, now)
    ensures var ended := spec.sessionType == NonInteractive && obs.pod.Some? && (state == Succeeded || state == Failed);
            var read := ReadingTaken(state, obs, now);
            && (idle <==> ended || (read && BelowThreshold(spec, obs)))
            && (read && !BelowThreshold(spec, obs) ==> idleSince == 0)
            && ((read && BelowThreshold(spec, obs)) || ended ==> idleSince == if prev.idleSince == 0 then now else prev.idleSince)
            && (!read && !ended ==> idleSince == prev.idleSince)
  {
    idle, idleSince := false, prev.idleSince;
    if obs.pod.None? {
      return;
    }
    if state == Running && OldEnough(obs.pod.value, now) {
      idle := IdleReading(spec, obs);
      if idle && idleSince == UNSET {
        idleSince := now;
      } else if !idle && idleSince != UNSET {
        idleSince := UNSET;
      }
    }
    if spec.sessionType.NonInteractive? {
      if (state == Succeeded || state == Failed) && idleSince == UNSET {
        idleSince := now;
      }
      if !idle {
        idle := state == Succeeded || state == Failed;
      }
    }
  }

  method ComputeStatus(creation: Time, spec: Spec, prev: Status, obs: Observation, runID: string, now: Time)
    returns (status: Status)
    ensures status == StatusOf(creation, spec, prev, obs, runID, now)
  {
    var state, failedSchedulingSince, error := CheckEvents(spec, prev, obs, now);
    var idle, idleSince := CheckIdleness(spec, prev, obs, state, now);
    if obs.pod.None? && obs.quotaExceeded {
      state, error := Failed, QUOTA_EXCEEDED;
    }
    assert state == FinalState(spec, prev, obs, now);
    var hibernatedSince := prev.hibernatedSince;
    if spec.hibernated && hibernatedSince == UNSET {
      hibernatedSince := now;
    }
    if !spec.hibernated && hibernatedSince != UNSET {
      hibernatedSince := UNSET;
    }
    assert hibernatedSince == Since(spec.hibernated, prev.hibernatedSince, now);
    var failing, failingSince := state == Failed, prev.failingSince;
    if failing && failingSince == UNSET {
      failingSince := now;
    }
    if !failing && failingSince != UNSET {
      failingSince := UNSET;
    }
    assert failingSince == Since(state == Failed, prev.failingSince, now);
    var date := CalculateHibernationDate(creation, prev, spec.culling);
    status := Status(state, idle, idleSince, failingSince, failedSchedulingSince, hibernatedSince, date, runID, error);
    if status.error == "" && obs.warning != "" {
      status := status.(error := obs.warning);
    }
    assert status.error == ErrorMessage(spec, prev, obs, now);
    if state == Hibernated || state == Running || state == Succeeded {
      status := status.(failedSchedulingSince := UNSET);
    }
    status := AfterScaling(ScalingOf(spec, obs), status, now);
  }

  // ---------------------------------------------------------------- what follows a status

  /** When a non-interactive session counts as done. */
  function DoneSince(status: Status): Time {
    if status.failingSince != UNSET && status.idleSince != UNSET && status.failingSince < status.idleSince
    then status.failingSince else status.idleSince
  }

  predicate NeedsDeletion(spec: Spec, status: Status, now: Time) {
    if spec.sessionType.NonInteractive? then
      && DoneSince(status) != UNSET
      && (status.state == Failed || status.state == Succeeded)
      && now - DoneSince(status) > spec.culling.maxHibernated
    else
      && status.state == Hibernated
      && spec.culling.maxHibernated != 0
      && now - status.hibernatedSince > spec.culling.maxHibernated
  }

  /** The operator hibernates the session itself. */
  predicate NeedsHibernation(spec: Spec, status: Status, now: Time) {
    && spec.sessionType.Interactive?
    && !spec.hibernated
    && status.state != Hibernated
    && status.willHibernateAt != UNSET
    && status.willHibernateAt < now
  }

  /** The type documentation says that a zero `maxHibernatedDuration` means no deletion.  That is so
      for interactive sessions only: a finished non-interactive one goes as soon as the clock moves. */
  lemma ZeroMaxHibernated(spec: Spec, status: Status, now: Time)
    requires spec.culling.maxHibernated == 0
    ensures NeedsDeletion(spec, status, now) <==>
            && spec.sessionType.NonInteractive?
            && (status.state == Failed || status.state == Succeeded)
            && UNSET < DoneSince(status) < now
  {
  }
}
