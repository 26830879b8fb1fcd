/** The conditions in a session's status: updated in place by every reconcile. */
module Conditions {
  import opened Expiry
  import opened Session

  datatype Kind = Ready | RoutingReady

  datatype Condition = Condition(kind: Kind, holds: bool, since: Time, reason: string)

  /** What a reconcile knows: the new state, whether the spec asks for an ingress, and whether there
      is one in the cluster. */
  datatype Sight = Sight(state: State, routed: bool, ingressFound: bool, now: Time)

  const SESSION_CREATED := "SessionCreated"
  const INGRESS_DELETED := "IngressDeleted"
  const INGRESS_OPERATIONAL := "IngressOperational"

  function StateName(state: State): string {
    match state
    case Running => "Running"
    case Failed => "Failed"
    case Hibernated => "Hibernated"
    case NotReady => "NotReady"
    case RunningDegraded => "RunningDegraded"
    case Succeeded => "Succeeded"
  }

  function NewConditions(now: Time): seq<Condition> {
    [Condition(Ready, false, now, SESSION_CREATED), Condition(RoutingReady, false, now, SESSION_CREATED)]
  }

  function Next(c: Condition, s: Sight): Condition {
    match c.kind
    case Ready =>
      if c.holds == (s.state == Running) then c else Condition(Ready, !c.holds, s.now, StateName(s.state))
    case RoutingReady =>
      if c.holds && !s.routed then Condition(RoutingReady, false, s.now, INGRESS_DELETED)
      else if !c.holds && s.routed && s.ingressFound then Condition(RoutingReady, true, s.now, INGRESS_OPERATIONAL)
      else c
  }

  function Updated(conditions: seq<Condition>, s: Sight): (r: seq<Condition>)
    ensures |r| == |conditions| && forall i :: 0 <= i < |r| ==> r[i] == Next(conditions[i], s)
  {
    if conditions == [] then [] else [Next(conditions[0], s)] + Updated(conditions[1..], s)
  }

  /** The loop of the operator.  The array in the previous status is the one that changes. */
  method Update(previous: array<Condition>, s: Sight) returns (conditions: array<Condition>)
    modifies previous
    ensures previous.Length > 0 ==> conditions == previous
    ensures conditions[..] == Updated(if previous.Length > 0 then old(previous[..]) else NewConditions(s.now), s)
  {
    conditions := previous;
    if conditions.Length == 0 {
      var made := NewConditions(s.now);
      conditions := new Condition[2](i requires 0 <= i < 2 => made[i]);
      assert conditions[..] == made;
    }
    ghost var before := conditions[..];
    for i := 0 to conditions.Length
      invariant conditions.Length == |before|
      invariant conditions == previous || fresh(conditions)
      invariant forall j :: 0 <= j < i ==> conditions[j] == Next(before[j], s)
      invariant forall j :: i <= j < |before| ==> conditions[j] == before[j]
    {
      var condition := conditions[i];
      match condition.kind {
        case Ready =>
          var stateIsRunning := s.state == Running;
          if stateIsRunning && !condition.holds {
            condition := condition.(holds := true, since := s.now, reason := StateName(s.state));
          } else if !stateIsRunning && condition.holds {
            condition := condition.(holds := false, since := s.now, reason := StateName(s.state));
          }
        case RoutingReady =>
          if !s.routed && condition.holds {
            condition := condition.(holds := false, since := s.now, reason := INGRESS_DELETED);
          } else if s.routed && !condition.holds && s.ingressFound {
            condition := condition.(holds := true, since := s.now, reason := INGRESS_OPERATIONAL);
          }
      }
      conditions[i] := condition;
    }
  }

  // ---------------------------------------------------------------- runs

  /** The conditions that reconcile `i` starts from. */
  function Before(sights: seq<Sight>, run: seq<seq<Condition>>, i: nat): seq<Condition>
    requires i < |sights| && i <= |run|
  {
    if i == 0 then NewConditions(sights[0].now) else run[i - 1]
  }

  predicate Reconciled(sights: seq<Sight>, run: seq<seq<Condition>>, i: nat)
    requires i < |sights| == |run|
  {
    run[i] == Updated(Before(sights, run, i), sights[i])
  }

  /** The conditions after each reconcile of a session. */
  ghost predicate Run(sights: seq<Sight>, run: seq<seq<Condition>>) {
    && |run| == |sights|
    && forall i {:trigger Reconciled(sights, run, i)} :: 0 <= i < |sights| ==> Reconciled(sights, run, i)
  }

  predicate Pair(conditions: seq<Condition>) {
    |conditions| == 2 && conditions[0].kind == Ready && conditions[1].kind == RoutingReady
  }

  lemma {:induction false} Step(sights: seq<Sight>, run: seq<seq<Condition>>, i: nat)
    requires Run(sights, run) && i < |run|
    ensures Pair(run[i]) && Pair(Before(sights, run, i))
    ensures forall k :: 0 <= k < 2 ==> run[i][k] == Next(Before(sights, run, i)[k], sights[i])
  {
    assert Reconciled(sights, run, i);
    if i > 0 {
      Step(sights, run, i - 1);
    }
  }

  predicate IsRunning(s: Sight) {
    s.state == Running
  }

  /** The session has been running, or not running, from round `i` up to round `n`. */
  predicate Streak(sights: seq<Sight>, i: nat, n: nat)
    requires n <= |sights|
  {
    && i < n
    && (forall k :: i <= k < n ==> IsRunning(sights[k]) == IsRunning(sights[n - 1]))
    && (i > 0 ==> IsRunning(sights[i - 1]) != IsRunning(sights[n - 1]))
  }

  /** `Ready` holds exactly while the session is running; time and reason are those of the reconcile
      that began the current streak, so the reason can name a state the session has left since. */
  lemma {:induction false} ReadyIsStreak(sights: seq<Sight>, run: seq<seq<Condition>>, n: nat) returns (i: nat)
    requires Run(sights, run) && 0 < n <= |run|
    ensures |run[n - 1]| == 2 && Streak(sights, i, n)
    ensures var ready := run[n - 1][0];
            && ready.kind == Ready
            && ready.holds == (sights[n - 1].state == Running)
            && ready.since == sights[i].now
            && ready.reason == if i == 0 && !ready.holds then SESSION_CREATED else StateName(sights[i].state)
  {
    Step(sights, run, n - 1);
    i := n - 1;
    if n > 1 {
      var j := ReadyIsStreak(sights, run, n - 1);
      if IsRunning(sights[n - 2]) == IsRunning(sights[n - 1]) {
        i := j;
        assert run[n - 1][0] == run[n - 2][0];
      } else {
        assert run[n - 1][0].since == sights[n - 1].now;
      }
    }
  }

  /** The spec has asked for an ingress from round `m` up to round `n`. */
  predicate Routed(sights: seq<Sight>, m: nat, n: nat)
    requires n <= |sights|
  {
    forall k :: m <= k < n ==> sights[k].routed
  }

  ghost predicate FoundOnce(sights: seq<Sight>, n: nat)
    requires n <= |sights|
  {
    exists m :: 0 <= m < n && sights[m].ingressFound && Routed(sights, m, n)
  }

  lemma FoundOnceStep(sights: seq<Sight>, n: nat)
    requires n < |sights|
    ensures FoundOnce(sights, n + 1) <==> sights[n].routed && (sights[n].ingressFound || FoundOnce(sights, n))
  {
    if sights[n].routed && FoundOnce(sights, n) {
      var m :| 0 <= m < n && sights[m].ingressFound && Routed(sights, m, n);
      assert Routed(sights, m, n + 1);
    }
    if sights[n].routed && sights[n].ingressFound {
      assert Routed(sights, n, n + 1);
    }
    if FoundOnce(sights, n + 1) {
      var m :| 0 <= m < n + 1 && sights[m].ingressFound && Routed(sights, m, n + 1);
      assert Routed(sights, m, n);
    }
  }

  /** `RoutingReady` holds if and only if the ingress was found once since the spec has been asking
      for one without a break.  Deleting the ingress, as hibernation does, does not undo it. */
  lemma {:induction false} RoutingReadyIff(sights: seq<Sight>, run: seq<seq<Condition>>, n: nat)
    requires Run(sights, run) && 0 < n <= |run|
    ensures |run[n - 1]| == 2
    ensures run[n - 1][1].holds <==> FoundOnce(sights, n)
  {
    Step(sights, run, n - 1);
    FoundOnceStep(sights, n - 1);
    if n > 1 {
      RoutingReadyIff(sights, run, n - 1);
    }
  }

  predicate Routes(conditions: seq<Condition>) {
    |conditions| == 2 && conditions[1].holds
  }

  /** `RoutingReady` has been what it is from round `i` up to round `n`. */
  predicate RoutingStreak(run: seq<seq<Condition>>, i: nat, n: nat)
    requires n <= |run|
  {
    && i < n
    && (forall k :: i <= k < n ==> Routes(run[k]) == Routes(run[n - 1]))
    && (i > 0 ==> Routes(run[i - 1]) != Routes(run[n - 1]))
  }

  /** Its time and reason are those of the reconcile that began the streak. */
  lemma {:induction false} RoutingReadyIsStreak(sights: seq<Sight>, run: seq<seq<Condition>>, n: nat) returns (i: nat)
    requires Run(sights, run) && 0 < n <= |run|
    ensures RoutingStreak(run, i, n) && Pair(run[n - 1])
    ensures var routing := run[n - 1][1];
            && routing.since == sights[i].now
            && routing.reason == if routing.holds then "IngressOperational" else if i == 0 then "SessionCreated" else "IngressDeleted"
  {
    Step(sights, run, n - 1);
    i := n - 1;
    if n > 1 {
      var j := RoutingReadyIsStreak(sights, run, n - 1);
      if Routes(run[n - 2]) == Routes(run[n - 1]) {
        i := j;
        assert run[n - 1][1] == run[n - 2][1];
      } else {
        assert run[n - 1][1].since == sights[n - 1].now;
      }
    }
  }

  /** A session that was running and has failed on its way back: its ingress is gone, but
      `RoutingReady` holds, and `Ready` gives a reason that is out of date. */
  lemma OutdatedConditions() returns (sights: seq<Sight>, run: seq<seq<Condition>>)
    ensures Run(sights, run) && |run| == 3 && |run[1]| == 2 && |run[2]| == 2
    ensures sights[1] == Sight(Hibernated, true, false, 20) && run[1][1] == Condition(RoutingReady, true, 10, INGRESS_OPERATIONAL)
    ensures sights[2] == Sight(Failed, true, false, 30) && run[2][0] == Condition(Ready, false, 20, StateName(Hibernated))
  {
    sights := [Sight(Running, true, true, 10), Sight(Hibernated, true, false, 20), Sight(Failed, true, false, 30)];
    var first := Updated(NewConditions(10), sights[0]);
    var second := Updated(first, sights[1]);
    run := [first, second, Updated(second, sights[2])];
    assert Reconciled(sights, run, 0) && Reconciled(sights, run, 1) && Reconciled(sights, run, 2);
  }
}
