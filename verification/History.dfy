/** Whole runs of a session: what the time stamps in its status say about the past, and why that
    makes hibernating and deleting it safe.

    A run lists the reconciles that wrote a status, in order and without conflicts.  Between two of
    them users may edit the spec, the operator itself may set `hibernated`, and the cluster may do
    anything: spec and observations are arbitrary in every round.  Only the session type is fixed. */
module History {
  import opened Expiry
  import opened Session
  import opened StatusMeaning
  import opened Wrappers

  datatype Round = Round(now: Time, spec: Spec, obs: Observation, newID: string, status: Status)

  /** The status that round `i` starts from. */
  function Before(h: seq<Round>, i: nat): Status
    requires i <= |h|
  {
    if i == 0 then FIRST_STATUS else h[i - 1].status
  }

  /** Round `i` is a reconcile that starts from the status before it. */
  predicate Reconciled(creation: Time, kind: SessionType, h: seq<Round>, i: nat)
    requires i < |h|
  {
    var r, prev := h[i], Before(h, i);
    && UNSET < creation <= r.now
    && (i > 0 ==> h[i - 1].now <= r.now)
    && r.spec.sessionType == kind
    && r.status == StatusOf(creation, r.spec, prev, r.obs, RunIDFor(r.spec, prev.runID, r.newID), r.now)
  }

  ghost predicate Run(creation: Time, kind: SessionType, h: seq<Round>) {
    forall i {:trigger Reconciled(creation, kind, h, i)} :: 0 <= i < |h| ==> Reconciled(creation, kind, h, i)
  }

  predicate Scaled(r: Round) {
    Rescales(r.spec, r.obs)
  }

  // ---------------------------------------------------------------- failing since

  predicate Failing(r: Round) {
    r.status.state == Failed && !Scaled(r)
  }

  /** The unbroken streak of Failed statuses that ends before round `n` starts at round `i`. */
  ghost predicate FailingStreak(h: seq<Round>, i: nat, n: nat)
    requires n <= |h|
  {
    && i < n
    && (forall k :: i <= k < n ==> Failing(h[k]))
    && (i > 0 ==> !Failing(h[i - 1]))
  }

  lemma FailingStep(creation: Time, kind: SessionType, h: seq<Round>, i: nat)
    requires Run(creation, kind, h) && i < |h|
    ensures h[i].now != UNSET
    ensures h[i].status.failingSince == if Failing(h[i]) then Since(true, Before(h, i).failingSince, h[i].now) else UNSET
  {
    RescalesExact(h[i].spec, h[i].obs);
    assert Reconciled(creation, kind, h, i);
  }

  /** `FailingSince` is set exactly while the status is Failed and not just scaled, and it is then
      the time of the first status of the streak. */
  lemma {:induction false} FailingSinceIsStreakStart(creation: Time, kind: SessionType, h: seq<Round>, n: nat)
    returns (i: nat)
    requires Run(creation, kind, h) && 0 < n <= |h|
    ensures h[n - 1].status.failingSince != UNSET <==> Failing(h[n - 1])
    ensures Failing(h[n - 1]) ==> FailingStreak(h, i, n) && h[i].now == h[n - 1].status.failingSince
  {
    FailingStep(creation, kind, h, n - 1);
    var last := h[n - 1];
    i := n - 1;
    if n > 1 {
      var j := FailingSinceIsStreakStart(creation, kind, h, n - 1);
      if Failing(last) && Failing(h[n - 2]) {
        i := j;
      }
    }
  }

  // ---------------------------------------------------------------- hibernated since

  /** From round `i` on, all rounds before `n` saw `spec.hibernated` and the StatefulSet stayed down. */
  ghost predicate HibernatedStreak(h: seq<Round>, i: nat, n: nat)
    requires n <= |h|
  {
    && i < n
    && (forall k :: i <= k < n ==> h[k].spec.hibernated)
    && (forall k :: i < k < n ==> !Scaled(h[k]))
    && (i > 0 ==> !h[i - 1].spec.hibernated || Scaled(h[i]))
  }

  lemma HibernatedStep(creation: Time, kind: SessionType, h: seq<Round>, i: nat)
    requires Run(creation, kind, h) && i < |h|
    ensures h[i].now != UNSET
    ensures h[i].status.hibernatedSince ==
            if !h[i].spec.hibernated then UNSET
            else if Scaled(h[i]) then h[i].now
            else Since(true, Before(h, i).hibernatedSince, h[i].now)
  {
    RescalesExact(h[i].spec, h[i].obs);
    assert Reconciled(creation, kind, h, i);
  }

  /** `HibernatedSince` is set exactly when the reconcile saw `spec.hibernated`, and it is then the
      time the streak began. */
  lemma {:induction false} HibernatedSinceIsStreakStart(creation: Time, kind: SessionType, h: seq<Round>, n: nat)
    returns (i: nat)
    requires Run(creation, kind, h) && 0 < n <= |h|
    ensures h[n - 1].status.hibernatedSince != UNSET <==> h[n - 1].spec.hibernated
    ensures h[n - 1].spec.hibernated ==> HibernatedStreak(h, i, n) && h[i].now == h[n - 1].status.hibernatedSince
  {
    HibernatedStep(creation, kind, h, n - 1);
    i := n - 1;
    if n > 1 {
      var j := HibernatedSinceIsStreakStart(creation, kind, h, n - 1);
      if h[n - 1].spec.hibernated && h[n - 2].spec.hibernated && !Scaled(h[n - 1]) {
        i := j;
      }
    }
  }

  // ---------------------------------------------------------------- deletion

  /** A duration is set, and every reconcile for longer than that has found `spec.hibernated` true, the
      StatefulSet down since, and at the end no quota exceeded. */
  ghost predicate DeletionEarned(h: seq<Round>, n: nat, later: Time)
    requires 0 < n <= |h|
  {
    && h[n - 1].spec.culling.maxHibernated != 0
    && !OverQuota(h[n - 1].obs)
    && exists i :: 0 <= i < n && HibernatedStreak(h, i, n) && later - h[i].now > h[n - 1].spec.culling.maxHibernated
  }

  /** An interactive session is deleted exactly when it has earned it. */
  lemma DeletionIff(creation: Time, h: seq<Round>, n: nat, later: Time)
    requires Run(creation, Interactive, h) && 0 < n <= |h| && h[n - 1].now <= later
    ensures NeedsDeletion(h[n - 1].spec, h[n - 1].status, later) <==> DeletionEarned(h, n, later)
  {
    var r := h[n - 1];
    HibernatedExactly(creation, h, n - 1);
    DeletionExact(r.spec, r.status, later);
    if r.spec.hibernated {
      var i := HibernatedSinceIsStreakStart(creation, Interactive, h, n);
      forall j | 0 <= j < n && HibernatedStreak(h, j, n)
        ensures j == i
      {
        HibernatedStreakUnique(h, i, j, n);
      }
    }
  }

  lemma HibernatedStreakUnique(h: seq<Round>, i: nat, j: nat, n: nat)
    requires n <= |h| && HibernatedStreak(h, i, n) && HibernatedStreak(h, j, n)
    ensures i == j
  {
  }

  /** An interactive session counts as Hibernated whenever its spec says so, except that an exceeded
      quota makes it Failed even then. */
  lemma HibernatedExactly(creation: Time, h: seq<Round>, i: nat)
    requires Run(creation, Interactive, h) && i < |h|
    ensures h[i].spec.sessionType == Interactive
    ensures h[i].status.state == Hibernated <==> h[i].spec.hibernated && !OverQuota(h[i].obs)
    ensures h[i].spec.hibernated && OverQuota(h[i].obs) ==> h[i].status.state == Failed
  {
    assert Reconciled(creation, Interactive, h, i);
  }

  // ---------------------------------------------------------------- idle since

  predicate Reads(r: Round) {
    ReadingTaken(r.status.state, r.obs, r.now)
  }

  predicate Low(r: Round) {
    r.obs.cpu.Some? && r.obs.cpu.value < r.spec.culling.cpuIdleThreshold
  }

  /** From round `i` on, every CPU reading before round `n` was there and below the threshold, and the
      StatefulSet was not scaled. */
  ghost predicate IdleStreak(h: seq<Round>, i: nat, n: nat)
    requires n <= |h|
  {
    && i < n
    && Reads(h[i])
    && (forall k :: i <= k < n && Reads(h[k]) ==> Low(h[k]))
    && (forall k :: i <= k < n ==> !Scaled(h[k]))
  }

  lemma IdleStep(creation: Time, h: seq<Round>, i: nat)
    requires Run(creation, Interactive, h) && i < |h|
    ensures h[i].now != UNSET
    ensures h[i].status.idleSince ==
            if Scaled(h[i]) then UNSET
            else if Reads(h[i]) then Since(Low(h[i]), Before(h, i).idleSince, h[i].now)
            else Before(h, i).idleSince
  {
    assert Reconciled(creation, Interactive, h, i);
    var prev := Before(h, i);
    IdleExact(creation, h[i].spec, prev, h[i].obs, RunIDFor(h[i].spec, prev.runID, h[i].newID), h[i].now);
  }

  /** A set `IdleSince` is the time of a reading that began an idle streak. */
  lemma {:induction false} IdleSinceIsStreakStart(creation: Time, h: seq<Round>, n: nat) returns (i: nat)
    requires Run(creation, Interactive, h) && 0 < n <= |h|
    requires h[n - 1].status.idleSince != UNSET
    ensures IdleStreak(h, i, n) && h[i].now == h[n - 1].status.idleSince
  {
    IdleStep(creation, h, n - 1);
    i := n - 1;
    if Before(h, n - 1).idleSince != UNSET {
      i := IdleSinceIsStreakStart(creation, h, n - 1);
    }
  }

  /** And every idle streak sets it, to its own beginning or to an earlier one. */
  lemma {:induction false} StreakSetsIdleSince(creation: Time, h: seq<Round>, i: nat, n: nat)
    requires Run(creation, Interactive, h) && n <= |h| && IdleStreak(h, i, n)
    ensures UNSET < h[n - 1].status.idleSince <= h[i].now
  {
    IdleStep(creation, h, n - 1);
    if i < n - 1 {
      StreakSetsIdleSince(creation, h, i, n - 1);
    } else if Before(h, i).idleSince != UNSET {
      var j := IdleSinceIsStreakStart(creation, h, i);
      TimesGrow(creation, Interactive, h, j, i);
    }
  }

  lemma {:induction false} TimesGrow(creation: Time, kind: SessionType, h: seq<Round>, i: nat, k: nat)
    requires Run(creation, kind, h) && i <= k < |h|
    ensures h[i].now <= h[k].now
  {
    if i < k {
      assert Reconciled(creation, kind, h, k);
      TimesGrow(creation, kind, h, i, k - 1);
    }
  }

  // ---------------------------------------------------------------- culling

  function Max(a: int, b: int): int {
    if a < b then b else a
  }

  ghost predicate FailedTooLong(h: seq<Round>, n: nat, maxFailed: int, d: Time)
    requires n <= |h|
  {
    maxFailed > 0 && exists i: nat :: FailingStreak(h, i, n) && d == h[i].now + maxFailed
  }

  ghost predicate IdledTooLong(h: seq<Round>, n: nat, c: Culling, d: Time)
    requires n <= |h|
  {
    c.maxIdle > 0 && exists i: nat :: IdleStreak(h, i, n) && d == Max(h[i].now, c.lastInteraction) + c.maxIdle
  }

  /** The deadline `d` that ran out in round `n - 1`, and the history that started its clock. */
  ghost predicate Reason(creation: Time, h: seq<Round>, n: nat, d: Time)
    requires 0 < n <= |h|
  {
    var c := h[n - 1].spec.culling;
    || (c.maxAge > 0 && d == creation + c.maxAge)
    || (c.maxStarting > 0 && Before(h, n - 1).state == NotReady && d == creation + c.maxStarting)
    || FailedTooLong(h, n - 1, c.maxFailed, d)
    || IdledTooLong(h, n - 1, c, d)
  }

  lemma DateStep(creation: Time, kind: SessionType, h: seq<Round>, i: nat)
    requires Run(creation, kind, h) && i < |h|
    ensures UNSET < creation && h[i].spec.sessionType == kind
    ensures IsEarliest(Deadlines(creation, Before(h, i), h[i].spec.culling), h[i].status.willHibernateAt)
    ensures IsDate(creation, Before(h, i), h[i].spec.culling, h[i].status.willHibernateAt)
  {
    DateExact(creation, Before(h, i), h[i].spec.culling);
    assert Reconciled(creation, kind, h, i);
  }

  lemma FailingDeadline(creation: Time, h: seq<Round>, n: nat, c: Culling)
    requires Run(creation, Interactive, h) && n <= |h| && DeadlineByFailing(Before(h, n), c) != UNSET
    ensures FailedTooLong(h, n, c.maxFailed, DeadlineByFailing(Before(h, n), c))
  {
    var i := FailingSinceIsStreakStart(creation, Interactive, h, n);
    assert FailingStreak(h, i, n);
  }

  lemma IdlingDeadline(creation: Time, h: seq<Round>, n: nat, c: Culling)
    requires Run(creation, Interactive, h) && n <= |h| && DeadlineByIdling(Before(h, n), c) != UNSET
    ensures IdledTooLong(h, n, c, DeadlineByIdling(Before(h, n), c))
  {
    var i := IdleSinceIsStreakStart(creation, h, n);
    assert IdleStreak(h, i, n);
  }

  /** A deadline that is set is one of the four. */
  lemma DeadlineReason(creation: Time, h: seq<Round>, n: nat, d: Time)
    requires Run(creation, Interactive, h) && 0 < n <= |h| && d != UNSET
    requires d in Deadlines(creation, Before(h, n - 1), h[n - 1].spec.culling)
    ensures Reason(creation, h, n, d)
  {
    var c, prev := h[n - 1].spec.culling, Before(h, n - 1);
    if d == DeadlineByFailing(prev, c) {
      FailingDeadline(creation, h, n - 1, c);
    } else if d == DeadlineByIdling(prev, c) {
      IdlingDeadline(creation, h, n - 1, c);
    }
  }

  ghost predicate HasFailed(h: seq<Round>, n: nat)
    requires n <= |h|
  {
    exists i: nat :: FailingStreak(h, i, n)
  }

  ghost predicate HasIdled(h: seq<Round>, n: nat)
    requires n <= |h|
  {
    exists i: nat :: IdleStreak(h, i, n)
  }

  lemma FailingStreakUnique(h: seq<Round>, i: nat, j: nat, n: nat)
    requires n <= |h| && FailingStreak(h, i, n) && FailingStreak(h, j, n)
    ensures i == j
  {
  }

  lemma FailingSinceIff(creation: Time, h: seq<Round>, n: nat)
    requires Run(creation, Interactive, h) && n <= |h|
    ensures Before(h, n).failingSince != UNSET <==> HasFailed(h, n)
    ensures forall i: nat :: FailingStreak(h, i, n) ==> Before(h, n).failingSince == h[i].now
  {
    if n > 0 {
      var i := FailingSinceIsStreakStart(creation, Interactive, h, n);
      forall j: nat | FailingStreak(h, j, n)
        ensures j == i && Failing(h[n - 1])
      {
        FailingStreakUnique(h, i, j, n);
      }
    }
  }

  lemma IdleSinceIff(creation: Time, h: seq<Round>, n: nat)
    requires Run(creation, Interactive, h) && n <= |h|
    ensures Before(h, n).idleSince != UNSET <==> HasIdled(h, n)
    ensures forall i: nat :: IdleStreak(h, i, n) ==> Before(h, n).idleSince <= h[i].now
  {
    if n > 0 && h[n - 1].status.idleSince != UNSET {
      var i := IdleSinceIsStreakStart(creation, h, n);
    }
    forall j: nat | IdleStreak(h, j, n)
      ensures UNSET < Before(h, n).idleSince <= h[j].now
    {
      StreakSetsIdleSince(creation, h, j, n);
    }
  }

  /** `d` leaves no more to each failing streak that lasts than it is granted. */
  ghost predicate KeepsFailed(h: seq<Round>, n: nat, maxFailed: int, d: Time)
    requires n <= |h|
  {
    forall i: nat :: FailingStreak(h, i, n) ==> UNSET < d <= h[i].now + maxFailed
  }

  /** Nor to each idle streak. */
  ghost predicate KeepsIdled(h: seq<Round>, n: nat, c: Culling, d: Time)
    requires n <= |h|
  {
    forall i: nat :: IdleStreak(h, i, n) ==> UNSET < d <= Max(h[i].now, c.lastInteraction) + c.maxIdle
  }

  lemma IdledKept(creation: Time, h: seq<Round>, n: nat, c: Culling, d: Time)
    requires Run(creation, Interactive, h) && n <= |h| && c.maxIdle > 0 && IsDate(creation, Before(h, n), c, d)
    ensures KeepsIdled(h, n, c, d)
  {
    forall i: nat | IdleStreak(h, i, n)
      ensures UNSET < d <= Max(h[i].now, c.lastInteraction) + c.maxIdle
    {
      StreakSetsIdleSince(creation, h, i, n);
      assert LastActive(Before(h, n), c) <= Max(h[i].now, c.lastInteraction);
    }
  }

  /** No enabled limit is left out: the date a reconcile computes keeps within the maximum age, within
      the time to start if the status before is NotReady, and within what is granted to every failing
      and every idle streak that lasts. */
  lemma DateKeepsLimits(creation: Time, h: seq<Round>, n: nat)
    requires Run(creation, Interactive, h) && 0 < n <= |h|
    ensures var c, d := h[n - 1].spec.culling, h[n - 1].status.willHibernateAt;
            && (c.maxAge > 0 ==> UNSET < d <= creation + c.maxAge)
            && (c.maxStarting > 0 && Before(h, n - 1).state == NotReady ==> UNSET < d <= creation + c.maxStarting)
            && (c.maxFailed > 0 ==> KeepsFailed(h, n - 1, c.maxFailed, d))
            && (c.maxIdle > 0 ==> KeepsIdled(h, n - 1, c, d))
  {
    DateStep(creation, Interactive, h, n - 1);
    var c := h[n - 1].spec.culling;
    FailingSinceIff(creation, h, n - 1);
    if c.maxIdle > 0 {
      IdledKept(creation, h, n - 1, c, h[n - 1].status.willHibernateAt);
    }
  }

  /** And it is set exactly when one of these limits is enabled. */
  lemma DateSetIff(creation: Time, h: seq<Round>, n: nat)
    requires Run(creation, Interactive, h) && 0 < n <= |h|
    ensures var c := h[n - 1].spec.culling;
            h[n - 1].status.willHibernateAt != UNSET <==>
            || c.maxAge > 0
            || (c.maxStarting > 0 && Before(h, n - 1).state == NotReady)
            || (c.maxFailed > 0 && HasFailed(h, n - 1))
            || (c.maxIdle > 0 && HasIdled(h, n - 1))
  {
    DateStep(creation, Interactive, h, n - 1);
    FailingSinceIff(creation, h, n - 1);
    IdleSinceIff(creation, h, n - 1);
  }

  /** The earliest enabled deadline, computed from the status before, has passed, and what it counts
      from did last until the reconcile before.  (The last reading is not part of it.) */
  ghost predicate CullingEarned(creation: Time, h: seq<Round>, n: nat, later: Time)
    requires 0 < n <= |h|
  {
    var d, prev, c := h[n - 1].status.willHibernateAt, Before(h, n - 1), h[n - 1].spec.culling;
    && UNSET < d < later
    && IsDate(creation, prev, c, d)
    && Reason(creation, h, n, d)
    && (c.maxFailed > 0 && prev.failingSince != UNSET && d == prev.failingSince + c.maxFailed ==>
          FailedTooLong(h, n - 1, c.maxFailed, d))
    && (c.maxIdle > 0 && prev.idleSince != UNSET && d == LastActive(prev, c) + c.maxIdle ==> IdledTooLong(h, n - 1, c, d))
  }

  lemma DateIsEarned(creation: Time, h: seq<Round>, n: nat, later: Time)
    requires Run(creation, Interactive, h) && 0 < n <= |h| && UNSET < h[n - 1].status.willHibernateAt < later
    ensures CullingEarned(creation, h, n, later)
  {
    DateStep(creation, Interactive, h, n - 1);
    var d, prev, c := h[n - 1].status.willHibernateAt, Before(h, n - 1), h[n - 1].spec.culling;
    if DeadlineByFailing(prev, c) != UNSET {
      FailingDeadline(creation, h, n - 1, c);
    }
    if DeadlineByIdling(prev, c) != UNSET {
      IdlingDeadline(creation, h, n - 1, c);
    }
    DeadlineReason(creation, h, n, d);
  }

  /** The operator hibernates a session exactly when it is interactive, not asked to hibernate yet and has
      earned it. */
  lemma CullingIff(creation: Time, kind: SessionType, h: seq<Round>, n: nat, later: Time)
    requires Run(creation, kind, h) && 0 < n <= |h| && h[n - 1].now <= later
    ensures NeedsHibernation(h[n - 1].spec, h[n - 1].status, later) <==>
            kind == Interactive && !h[n - 1].spec.hibernated && CullingEarned(creation, h, n, later)
  {
    DateStep(creation, kind, h, n - 1);
    if kind == Interactive {
      HibernatedExactly(creation, h, n - 1);
      if UNSET < h[n - 1].status.willHibernateAt < later {
        DateIsEarned(creation, h, n, later);
      }
    }
  }

  // ---------------------------------------------------------------- scheduling

  /** The pod's events report a scheduling failure and no node found since. */
  ghost predicate FailureReported(r: Round) {
    Unscheduled(r.spec, r.obs)
  }

  /** The reconcile looked at the pod's events and found that a node was found for it. */
  ghost predicate SawNode(r: Round) {
    Waiting(r.spec, r.obs) && r.obs.podEvents.Some? && FoundNode(r.obs.podEvents.value)
  }

  /** Nothing in this round lets the session off. */
  ghost predicate StillUnscheduled(r: Round) {
    && r.status.state != Running && r.status.state != Hibernated && r.status.state != Succeeded
    && !Scaled(r)
    && !SawNode(r)
  }

  lemma SchedulingStep(creation: Time, kind: SessionType, h: seq<Round>, i: nat)
    requires Run(creation, kind, h) && i < |h|
    ensures h[i].now != UNSET
    ensures h[i].status.failedSchedulingSince ==
            if !StillUnscheduled(h[i]) then UNSET
            else if FailureReported(h[i]) then Since(true, Before(h, i).failedSchedulingSince, h[i].now)
            else Before(h, i).failedSchedulingSince
  {
    var r, prev := h[i], Before(h, i);
    assert Reconciled(creation, kind, h, i);
    RescalesExact(r.spec, r.obs);
    InferenceRead(r, prev);
  }

  lemma InferenceRead(r: Round, prev: Status)
    ensures var inference := InferenceOf(r.spec, prev, r.obs, r.now);
            && (inference == IsScheduled <==> SawNode(r))
            && (inference == InitiallyFailed <==> FailureReported(r) && prev.failedSchedulingSince == UNSET)
  {
    WaitingExact(r.spec, r.obs);
    if r.obs.podEvents.Some? {
      InferenceExact(r.obs.podEvents.value, prev.failedSchedulingSince, r.now);
    }
  }

  /** The failure was reported in round `i`, and nothing has let the session off up to round `n`. */
  ghost predicate UnscheduledStreak(h: seq<Round>, i: nat, n: nat)
    requires n <= |h|
  {
    i < n && FailureReported(h[i]) && forall k :: i <= k < n ==> StillUnscheduled(h[k])
  }

  /** A set `FailedSchedulingSince` is the time of the report that began such a streak. */
  lemma {:induction false} FailedSchedulingSinceIsFirst(creation: Time, kind: SessionType, h: seq<Round>, n: nat)
    returns (i: nat)
    requires Run(creation, kind, h) && 0 < n <= |h|
    requires h[n - 1].status.failedSchedulingSince != UNSET
    ensures UnscheduledStreak(h, i, n) && h[i].now == h[n - 1].status.failedSchedulingSince
  {
    SchedulingStep(creation, kind, h, n - 1);
    i := n - 1;
    if Before(h, n - 1).failedSchedulingSince != UNSET {
      i := FailedSchedulingSinceIsFirst(creation, kind, h, n - 1);
    }
  }

  /** And every such streak sets it, to its own beginning or to an earlier one. */
  lemma {:induction false} StreakSetsFailedSchedulingSince(creation: Time, kind: SessionType, h: seq<Round>, i: nat, n: nat)
    requires Run(creation, kind, h) && n <= |h| && UnscheduledStreak(h, i, n)
    ensures UNSET < h[n - 1].status.failedSchedulingSince <= h[i].now
  {
    SchedulingStep(creation, kind, h, n - 1);
    if i < n - 1 {
      StreakSetsFailedSchedulingSince(creation, kind, h, i, n - 1);
    } else if Before(h, i).failedSchedulingSince != UNSET {
      var j := FailedSchedulingSinceIsFirst(creation, kind, h, i);
      TimesGrow(creation, kind, h, j, i);
    }
  }

  /** A session fails for lack of a node exactly when the failure is reported once more after ten
      minutes in which nothing spoke for it. */
  lemma SchedulingFailureIff(creation: Time, kind: SessionType, h: seq<Round>, n: nat)
    requires Run(creation, kind, h) && 0 < n <= |h|
    ensures NeverScheduled(h[n - 1].spec, Before(h, n - 1), h[n - 1].obs, h[n - 1].now) <==>
            && FailureReported(h[n - 1])
            && exists i :: 0 <= i < n - 1 && UnscheduledStreak(h, i, n - 1) && h[n - 1].now - h[i].now >= 600
    ensures NeverScheduled(h[n - 1].spec, Before(h, n - 1), h[n - 1].obs, h[n - 1].now) ==> h[n - 1].status.state == Failed
  {
    var r, prev := h[n - 1], Before(h, n - 1);
    assert Reconciled(creation, kind, h, n - 1);
    StateExact(creation, r.spec, prev, r.obs, RunIDFor(r.spec, prev.runID, r.newID), r.now);
    if prev.failedSchedulingSince != UNSET {
      var i := FailedSchedulingSinceIsFirst(creation, kind, h, n - 1);
      assert UnscheduledStreak(h, i, n - 1);
    }
    forall i | 0 <= i < n - 1 && UnscheduledStreak(h, i, n - 1)
      ensures UNSET < prev.failedSchedulingSince <= h[i].now
    {
      StreakSetsFailedSchedulingSince(creation, kind, h, i, n - 1);
    }
  }

  // ---------------------------------------------------------------- run IDs

  /** Each reconcile draws an ID that no other one draws. */
  ghost predicate FreshIDs(h: seq<Round>) {
    && (forall i :: 0 <= i < |h| ==> h[i].newID != "")
    && (forall i, j :: 0 <= i < j < |h| ==> h[i].newID != h[j].newID)
  }

  lemma RunIDStep(creation: Time, kind: SessionType, h: seq<Round>, i: nat)
    requires Run(creation, kind, h) && i < |h|
    ensures h[i].status.runID == RunIDFor(h[i].spec, Before(h, i).runID, h[i].newID)
  {
    assert Reconciled(creation, kind, h, i);
  }

  /** Hibernation ends a block. */
  lemma HibernationClearsRunID(creation: Time, kind: SessionType, h: seq<Round>, i: nat)
    requires Run(creation, kind, h) && i < |h| && h[i].spec.hibernated
    ensures h[i].status.runID == ""
  {
    RunIDStep(creation, kind, h, i);
  }

  lemma {:induction false} RunIDFromBlockStart(creation: Time, kind: SessionType, h: seq<Round>, n: nat)
    returns (i: nat)
    requires Run(creation, kind, h) && FreshIDs(h) && 0 < n <= |h| && !h[n - 1].spec.hibernated
    ensures i < n && h[n - 1].status.runID == h[i].newID
    ensures (forall k :: i <= k < n ==> !h[k].spec.hibernated) && (i > 0 ==> h[i - 1].spec.hibernated)
  {
    RunIDStep(creation, kind, h, n - 1);
    i := n - 1;
    if n > 1 {
      if h[n - 2].spec.hibernated {
        RunIDStep(creation, kind, h, n - 2);
      } else {
        i := RunIDFromBlockStart(creation, kind, h, n - 1);
      }
    }
  }

  /** Two reconciles of a session that is not hibernated store the same run ID exactly when no
      hibernated one lies between them. */
  lemma RunIDPerBlock(creation: Time, kind: SessionType, h: seq<Round>, a: nat, b: nat)
    requires Run(creation, kind, h) && FreshIDs(h) && a < b < |h|
    requires !h[a].spec.hibernated && !h[b].spec.hibernated
    ensures h[a].status.runID != ""
    ensures h[a].status.runID == h[b].status.runID <==> forall k :: a < k < b ==> !h[k].spec.hibernated
  {
    var i := RunIDFromBlockStart(creation, kind, h, a + 1);
    var j := RunIDFromBlockStart(creation, kind, h, b + 1);
    if forall k :: a < k < b ==> !h[k].spec.hibernated {
      assert i <= j ==> i == j;
    }
  }

  // ---------------------------------------------------------------- a zero duration

  const UNLIMITED := Culling(0, 0, 0, 0, 0, UNSET, 0)

  /** A batch job that has succeeded, seen by the first reconcile at all, is gone a second later
      although `maxHibernatedDuration` is zero. */
  lemma FinishedJobVanishes() returns (h: seq<Round>)
    ensures Run(1, NonInteractive, h) && |h| == 1
    ensures h[0].spec.culling == UNLIMITED && h[0].status.state == Succeeded
    ensures !NeedsDeletion(h[0].spec, h[0].status, h[0].now) && NeedsDeletion(h[0].spec, h[0].status, h[0].now + 1)
  {
    var spec := Spec(NonInteractive, false, Never, UNLIMITED);
    var obs := Observation(Absent, false, false, false, true, Some(Pod(false, true, None)), "", None, None, false, "");
    var status := StatusOf(1, spec, FIRST_STATUS, obs, RunIDFor(spec, "", "A"), 1);
    h := [Round(1, spec, obs, "A", status)];
    assert Reconciled(1, NonInteractive, h, 0);
  }
}
