/** Deleting a session: reconciles, users and the API server race for one resource and its secrets.
    The resource is one object; it is not created anew under the same name. */
module Deletion {
  import opened Finalizer

  /** The stored resource.  A write gives it a new version, unless it changes nothing. */
  datatype Resource = Resource(version: nat, refs: Refs, deleting: bool, finalizer: bool, present: bool)

  datatype Worker =
    | Idle
    | Read(copy: Resource)
    | Sweeping(copy: Resource, next: nat, clean: bool)   // deletes the adopted secrets one by one

  datatype System = System(stored: Resource, secrets: set<string>, workers: seq<Worker>)

  datatype Event =
    | Get(t: nat)
    | Register(t: nat, applied: bool)           // adds the finalizer
    | Mark(t: nat, changed: bool)               // writes the state NotReady
    | Sweep(t: nat, answer: Answer)
    | Release(t: nat, applied: bool)            // removes the finalizer
    | GiveUp(t: nat)
    | StatusWrite                               // by any other reconcile
    | Delete                                    // by a user, or by the operator itself
    | Edit(refs: Refs, finalizer: bool)         // by a user
    | OtherSecrets(secrets: set<string>)        // others create and delete secrets

  predicate Current(copy: Resource, stored: Resource) {
    stored.present && copy.version == stored.version
  }

  predicate Allowed(s: System, e: Event) {
    match e
    case Get(t) => t < |s.workers| && s.stored.present && !s.workers[t].Sweeping?
    case Register(t, applied) =>
      && t < |s.workers| && s.workers[t].Read?
      && !s.workers[t].copy.deleting && !s.workers[t].copy.finalizer && Adopted(s.workers[t].copy.refs) != []
      && (applied ==> Current(s.workers[t].copy, s.stored))
    case Mark(t, _) =>
      t < |s.workers| && s.workers[t].Read? && s.workers[t].copy.deleting && Current(s.workers[t].copy, s.stored)
    case Sweep(t, answer) =>
      && t < |s.workers| && s.workers[t].Sweeping? && s.workers[t].next < |Adopted(s.workers[t].copy.refs)|
      && (answer.NotFound? ==> Adopted(s.workers[t].copy.refs)[s.workers[t].next] !in s.secrets)
    case Release(t, applied) =>
      && t < |s.workers| && s.workers[t].Sweeping? && s.workers[t].next == |Adopted(s.workers[t].copy.refs)|
      && s.workers[t].clean
      && (applied ==> Current(s.workers[t].copy, s.stored))
    case GiveUp(t) => t < |s.workers|
    case StatusWrite | Delete | Edit(_, _) => s.stored.present
    case OtherSecrets(_) => true
  }

  /** A resource that is being deleted is gone once nothing holds it. */
  function Put(r: Resource): Resource {
    r.(version := r.version + 1, present := r.finalizer || !r.deleting)
  }

  function Step(s: System, e: Event): System
    requires Allowed(s, e)
  {
    match e
    case Get(t) => s.(workers := s.workers[t := Read(s.stored)])
    case Register(t, applied) =>
      if !applied then s.(workers := s.workers[t := Idle])
      else
        var now := Put(s.stored.(finalizer := true));
        s.(stored := now, workers := s.workers[t := Read(now)])
    case Mark(t, changed) =>
      var now := if changed then Put(s.stored) else s.stored;
      s.(stored := now, workers := s.workers[t := if s.workers[t].copy.finalizer then Sweeping(now, 0, true) else Idle])
    case Sweep(t, answer) =>
      var w := s.workers[t];
      s.(secrets := Without(s.secrets, Adopted(w.copy.refs)[w.next], answer),
         workers := s.workers[t := Sweeping(w.copy, w.next + 1, w.clean && !answer.Refused?)])
    case Release(t, applied) =>
      s.(stored := if applied then Put(s.stored.(finalizer := false)) else s.stored, workers := s.workers[t := Idle])
    case GiveUp(t) => s.(workers := s.workers[t := Idle])
    case StatusWrite => s.(stored := Put(s.stored))
    case Delete => s.(stored := Put(s.stored.(deleting := true)))
    case Edit(refs, finalizer) => s.(stored := Put(s.stored.(refs := refs, finalizer := finalizer)))
    case OtherSecrets(secrets) => s.(secrets := secrets)
  }

  ghost predicate Run(run: seq<System>, events: seq<Event>) {
    && |run| == |events| + 1
    && (forall t :: 0 <= t < |run[0].workers| ==> run[0].workers[t] == Idle)
    && forall k {:trigger events[k]} :: 0 <= k < |events| ==>
         Allowed(run[k], events[k]) && run[k + 1] == Step(run[k], events[k])
  }

  lemma StepOf(run: seq<System>, events: seq<Event>, k: nat)
    requires Run(run, events) && 0 < k < |run|
    ensures Allowed(run[k - 1], events[k - 1]) && run[k] == Step(run[k - 1], events[k - 1])
  {
    assert run[k - 1 + 1] == Step(run[k - 1], events[k - 1]);
  }

  // ---------------------------------------------------------------- copies

  /** A copy is no newer than the resource, and equal to it while the version is the same. */
  predicate Copy(copy: Resource, stored: Resource) {
    copy.version < stored.version || copy == stored
  }

  predicate WorkerOk(w: Worker, stored: Resource) {
    match w
    case Idle => true
    case Read(copy) => Copy(copy, stored)
    case Sweeping(copy, next, _) => Copy(copy, stored) && copy.deleting && next <= |Adopted(copy.refs)|
  }

  lemma {:induction false} WorkersOk(run: seq<System>, events: seq<Event>, k: nat, t: nat)
    requires Run(run, events) && k < |run| && t < |run[k].workers|
    ensures WorkerOk(run[k].workers[t], run[k].stored)
  {
    if k > 0 {
      StepOf(run, events, k);
      WorkersOk(run, events, k - 1, t);
    }
  }

  lemma {:induction false} VersionsGrow(run: seq<System>, events: seq<Event>, i: nat, k: nat)
    requires Run(run, events) && i <= k < |run|
    ensures run[i].stored.version <= run[k].stored.version
  {
    if i < k {
      StepOf(run, events, k);
      VersionsGrow(run, events, i, k - 1);
    }
  }

  // ---------------------------------------------------------------- what a sweep achieves

  /** At `m` the secret was absent, and the resource was this copy or a later one. */
  predicate AbsentAt(s: System, copy: Resource, name: string) {
    Copy(copy, s.stored) && name !in s.secrets
  }

  ghost predicate WasAbsent(run: seq<System>, k: nat, copy: Resource, name: string) {
    exists m :: 0 <= m <= k && m < |run| && AbsentAt(run[m], copy, name)
  }

  lemma StillWasAbsent(run: seq<System>, k: nat, copy: Resource, name: string)
    requires 0 < k && WasAbsent(run, k - 1, copy, name)
    ensures WasAbsent(run, k, copy, name)
  {
    var m :| 0 <= m <= k - 1 && m < |run| && AbsentAt(run[m], copy, name);
    assert 0 <= m <= k && AbsentAt(run[m], copy, name);
  }

  /** One delete call that was not refused: the secret is absent now. */
  lemma SweptNow(s: System, t: nat, answer: Answer)
    requires Allowed(s, Sweep(t, answer)) && !answer.Refused? && Copy(s.workers[t].copy, s.stored)
    ensures var w := s.workers[t]; AbsentAt(Step(s, Sweep(t, answer)), w.copy, Adopted(w.copy.refs)[w.next])
  {
  }

  /** How a worker got to a clean sweep that is past `i`: it was past it before, or has just swept it. */
  lemma PastAlready(s: System, e: Event, t: nat, i: nat)
    requires Allowed(s, e) && t < |s.workers|
    requires var w := Step(s, e).workers[t]; w.Sweeping? && w.clean && i < w.next
    ensures var w, before := Step(s, e).workers[t], s.workers[t];
            && before.Sweeping? && before.clean && before.copy == w.copy
            && (i < before.next || (e.Sweep? && e.t == t && !e.answer.Refused? && i == before.next))
  {
  }

  /** A sweep without refusals has seen every secret before `next` absent. */
  lemma {:induction false} SweptSecretsWereAbsent(run: seq<System>, events: seq<Event>, k: nat, t: nat, i: nat)
    requires Run(run, events) && k < |run| && t < |run[k].workers|
    requires var w := run[k].workers[t]; w.Sweeping? && w.clean && i < w.next && i < |Adopted(w.copy.refs)|
    ensures WasAbsent(run, k, run[k].workers[t].copy, Adopted(run[k].workers[t].copy.refs)[i])
  {
    var w := run[k].workers[t];
    var name := Adopted(w.copy.refs)[i];
    StepOf(run, events, k);
    assert t < |run[k - 1].workers|;
    PastAlready(run[k - 1], events[k - 1], t, i);
    if i < run[k - 1].workers[t].next {
      SweptSecretsWereAbsent(run, events, k - 1, t, i);
      StillWasAbsent(run, k, w.copy, name);
    } else {
      WorkersOk(run, events, k - 1, t);
      SweptNow(run[k - 1], t, events[k - 1].answer);
      assert AbsentAt(run[k], w.copy, name);
    }
  }

  /** A resource held by the finalizer disappears only through an operator that releases it, or
      through a user who takes the finalizer away.  In the first case every secret that the spec
      adopts was absent at a moment when the resource was already what it is now: being deleted, and
      naming these secrets. */
  lemma SecretsGoFirst(run: seq<System>, events: seq<Event>, k: nat)
    requires Run(run, events) && k < |events|
    requires run[k].stored.present && run[k].stored.finalizer && !run[k + 1].stored.finalizer
    ensures events[k].Edit? || events[k].Release?
    ensures events[k].Release? ==>
              && run[k].stored.deleting && !run[k + 1].stored.present
              && forall name :: Adopts(run[k].stored.refs, name) ==>
                   exists m :: 0 <= m <= k && run[m].stored == run[k].stored && name !in run[m].secrets
  {
    var e, stored := events[k], run[k].stored;
    if e.Release? {
      WorkersOk(run, events, k, e.t);
      assert run[k].workers[e.t].copy == stored;
      forall name | Adopts(stored.refs, name)
        ensures exists m :: 0 <= m <= k && run[m].stored == stored && name !in run[m].secrets
      {
        AdoptedExact(stored.refs, name);
        var i :| 0 <= i < |Adopted(stored.refs)| && Adopted(stored.refs)[i] == name;
        SweptSecretsWereAbsent(run, events, k, e.t, i);
        var m :| 0 <= m <= k && AbsentAt(run[m], stored, name);
        VersionsGrow(run, events, m, k);
      }
    }
  }

  /** While the finalizer is in place the resource stays. */
  lemma FinalizerHolds(run: seq<System>, events: seq<Event>, k: nat)
    requires Run(run, events) && k < |events|
    requires run[k].stored.present && !run[k + 1].stored.present
    ensures !run[k + 1].stored.finalizer && run[k + 1].stored.deleting
    ensures run[k].stored.finalizer ==> events[k].Edit? || events[k].Release?
  {
    StepOf(run, events, k + 1);
  }

  // ---------------------------------------------------------------- what one reconcile achieves

  /** These events lead from one state to the other. */
  ghost predicate Leads(s: System, events: seq<Event>, s': System)
    decreases |events|
  {
    if events == [] then s' == s
    else Allowed(s, events[0]) && Leads(Step(s, events[0]), events[1..], s')
  }

  lemma LeadsOn(s: System, e: Event, events: seq<Event>, s': System)
    requires Allowed(s, e) && Leads(Step(s, e), events, s')
    ensures Leads(s, [e] + events, s')
  {
    assert ([e] + events)[1..] == events;
  }

  /** A session with adopted secrets gets the finalizer. */
  lemma FinalizerIsRegistered(s: System, t: nat)
    requires t < |s.workers| && !s.workers[t].Sweeping? && s.stored.present && !s.stored.deleting && !s.stored.finalizer
    requires Adopted(s.stored.refs) != []
    ensures var s' := Step(Step(s, Get(t)), Register(t, true));
            Leads(s, [Get(t)] + [Register(t, true)], s') && s'.stored.finalizer && s'.stored.present
  {
    var got := Step(s, Get(t));
    LeadsOn(s, Get(t), [Register(t, true)], Step(got, Register(t, true)));
  }

  /** From the `next`-th secret on, a sweep that nobody disturbs deletes the rest and lets go. */
  lemma {:induction false} SweepCompletes(s: System, t: nat) returns (events: seq<Event>, s': System)
    requires t < |s.workers| && s.workers[t].Sweeping? && s.workers[t].clean
    requires s.workers[t].next <= |Adopted(s.workers[t].copy.refs)|
    requires s.workers[t].copy == s.stored && s.stored.present && s.stored.deleting
    ensures Leads(s, events, s') && !s'.stored.present && s'.secrets <= s.secrets
    ensures forall i :: s.workers[t].next <= i < |Adopted(s.stored.refs)| ==> Adopted(s.stored.refs)[i] !in s'.secrets
    decreases |Adopted(s.workers[t].copy.refs)| - s.workers[t].next
  {
    var w := s.workers[t];
    if w.next == |Adopted(w.copy.refs)| {
      s' := Step(s, Release(t, true));
      events := [Release(t, true)] + [];
      LeadsOn(s, Release(t, true), [], s');
    } else {
      var swept := Step(s, Sweep(t, Done));
      events, s' := SweepCompletes(swept, t);
      LeadsOn(s, Sweep(t, Done), events, s');
      events := [Sweep(t, Done)] + events;
    }
  }

  /** An undisturbed reconcile of a session that is being deleted removes all its secrets, and then
      the session. */
  lemma DeletionCompletes(s: System, t: nat) returns (events: seq<Event>, s': System)
    requires t < |s.workers| && !s.workers[t].Sweeping? && s.stored.present && s.stored.deleting && s.stored.finalizer
    ensures Leads(s, events, s') && !s'.stored.present
    ensures forall name :: Adopts(s.stored.refs, name) ==> name !in s'.secrets
  {
    var got := Step(s, Get(t));
    var marked := Step(got, Mark(t, true));
    events, s' := SweepCompletes(marked, t);
    LeadsOn(got, Mark(t, true), events, s');
    LeadsOn(s, Get(t), [Mark(t, true)] + events, s');
    events := [Get(t)] + ([Mark(t, true)] + events);
    forall name | Adopts(s.stored.refs, name)
      ensures name !in s'.secrets
    {
      AdoptedExact(s.stored.refs, name);
    }
  }
}
