/** The Kubernetes objects a session owns, and how one reconcile brings each of them in line with the
    manifest generated from the custom resource. */
module Children {
  import opened Session
  import opened Wrappers

  type Labels = map<string, string>

  // ---------------------------------------------------------------- labels and annotations

  /** What comes before the first slash, or the whole key. */
  function Domain(key: string): (d: string)
    ensures d <= key && (forall i :: 0 <= i < |d| ==> d[i] != '/')
    ensures |d| < |key| ==> key[|d|] == '/'
  {
    if key == "" || key[0] == '/' then "" else [key[0]] + Domain(key[1..])
  }

  predicate HasSuffix(s: string, suffix: string) {
    |suffix| <= |s| && s[|s| - |suffix|..] == suffix
  }

  predicate WellKnown(key: string) {
    var domain := Domain(key);
    domain == "kubernetes.io" || domain == "k8s.io" || HasSuffix(domain, ".kubernetes.io") || HasSuffix(domain, ".k8s.io")
  }

  /** `d` is all of the key, or all before a slash, and has no slash in it. */
  predicate IsDomain(key: string, d: string) {
    && d <= key && (forall i :: 0 <= i < |d| ==> d[i] != '/')
    && (|d| == |key| || key[|d|] == '/')
  }

  /** `kubernetes.io` or `k8s.io`, or a name below one of them. */
  ghost predicate Reserved(d: string) {
    || d == "kubernetes.io" || d == "k8s.io"
    || (exists name: string :: d == name + ".kubernetes.io")
    || (exists name: string :: d == name + ".k8s.io")
  }

  lemma SuffixExact(s: string, suffix: string)
    ensures HasSuffix(s, suffix) <==> exists name: string :: s == name + suffix
  {
    if HasSuffix(s, suffix) {
      var name := s[..|s| - |suffix|];
      assert s == name + suffix;
    }
    if name: string :| s == name + suffix {
      assert s[|name|..] == suffix;
    }
  }

  lemma DomainUnique(key: string, d: string)
    requires IsDomain(key, d)
    ensures d == Domain(key)
  {
    var e := Domain(key);
    assert forall i :: 0 <= i < |e| ==> key[i] == e[i] != '/';
    assert forall i :: 0 <= i < |d| ==> key[i] == d[i] != '/';
    assert d == key[..|d|] && e == key[..|e|];
  }

  /** A key is well known exactly if its domain is reserved. */
  lemma WellKnownExact(key: string)
    ensures WellKnown(key) <==> exists d :: IsDomain(key, d) && Reserved(d)
  {
    var domain := Domain(key);
    assert IsDomain(key, domain);
    SuffixExact(domain, ".kubernetes.io");
    SuffixExact(domain, ".k8s.io");
    forall d | IsDomain(key, d)
      ensures d == domain
    {
      DomainUnique(key, d);
    }
  }

  function WellKnownOf(labels: Labels): Labels {
    map key | key in labels && WellKnown(key) :: labels[key]
  }

  /** The desired entries, except that a well-known key the object already has is left alone. */
  function Clean(current: Labels, desired: Labels): Labels {
    desired + WellKnownOf(current)
  }

  method Preserve(current: Labels) returns (preserved: Labels)
    ensures preserved == WellKnownOf(current)
  {
    preserved := map[];
    var todo := current.Keys;
    while todo != {}
      invariant todo <= current.Keys
      invariant preserved == map key | key in current.Keys - todo && WellKnown(key) :: current[key]
      decreases |todo|
    {
      var key :| key in todo;
      if WellKnown(key) {
        preserved := preserved[key := current[key]];
      }
      todo := todo - {key};
    }
  }

  method CopyInto(target: Labels, source: Labels) returns (result: Labels)
    ensures result == target + source
  {
    result := target;
    var todo := source.Keys;
    while todo != {}
      invariant todo <= source.Keys
      invariant result.Keys == target.Keys + (source.Keys - todo)
      invariant forall key :: key in result ==> result[key] == if key in source && key !in todo then source[key] else target[key]
      decreases |todo|
    {
      var key :| key in todo;
      result := result[key := source[key]];
      todo := todo - {key};
    }
  }

  method CleanWellKnown(current: Labels, desired: Labels) returns (clean: Labels)
    ensures clean == Clean(current, desired)
  {
    var preserved := Preserve(current);
    clean := CopyInto(map[], desired);
    clean := CopyInto(clean, preserved);
  }

  lemma CleanAt(current: Labels, desired: Labels, key: string)
    ensures key in Clean(current, desired) <==> (key in current && WellKnown(key)) || key in desired
    ensures key in Clean(current, desired) ==>
              Clean(current, desired)[key] == if key in current && WellKnown(key) then current[key] else desired[key]
  {
  }

  /** A well-known key the operator itself sets can never be changed by it again: writing `first` and
      then `desired` is the same as writing `desired` alone if and only if `desired` repeats every
      well-known entry that `first` added. */
  lemma CleanTwice(current: Labels, first: Labels, desired: Labels)
    ensures Clean(Clean(current, first), desired) == Clean(current, desired) <==>
            forall key :: key in first && key !in current && WellKnown(key) ==> key in desired && desired[key] == first[key]
  {
    var between := Clean(current, first);
    var twice, once := Clean(between, desired), Clean(current, desired);
    forall key
      ensures (key in twice <==> key in once) && (key in twice ==> twice[key] == once[key]) <==>
              (key in first && key !in current && WellKnown(key) ==> key in desired && desired[key] == first[key])
    {
      CleanAt(current, first, key);
      CleanAt(between, desired, key);
      CleanAt(current, desired, key);
    }
  }

  /** So a changed well-known label in the manifest is not applied. */
  lemma LabelIsStuck()
    ensures Clean(Clean(map[], map["k8s.io" := "a"]), map["k8s.io" := "b"]) == map["k8s.io" := "a"]
  {
    assert Domain("k8s.io") == "k8s.io";
  }

  // ---------------------------------------------------------------- the objects

  datatype Meta = Meta(labels: Labels, annotations: Labels, rest: string)

  /** `rest` is whatever the operator writes only when it creates the object. */
  datatype Template = Template(
    labels: Labels,
    annotations: Labels,
    containers: string,
    initContainers: string,
    volumes: string,
    tolerations: string,
    affinity: string,
    nodeSelector: string,
    priorityClass: string,
    rest: string)

  datatype Workload = Workload(template: Template, replicas: Option<int>, selector: string, rest: string)

  datatype Batch = Batch(
    template: Template, suspend: Option<bool>, deadline: Option<int>, ttl: Option<int>, finished: bool, rest: string)

  datatype Volume = Volume(requests: string, storageClass: Option<string>, rest: string)

  datatype Endpoint = Endpoint(ports: string, selector: string, rest: string)

  datatype Body = Ingress(rules: string) | StatefulSet(workload: Workload) | Claim(volume: Volume) | Service(endpoint: Endpoint) | Job(batch: Batch)

  datatype Child = Child(meta: Meta, body: Body)

  predicate SameKind(a: Body, b: Body) {
    && a.Ingress? == b.Ingress? && a.StatefulSet? == b.StatefulSet? && a.Claim? == b.Claim?
    && a.Service? == b.Service?
  }

  // ---------------------------------------------------------------- what a patch leaves

  /** The strategy lets this reconcile change more than replicas and scheduling. */
  predicate Applies(strategy: Strategy, state: State) {
    strategy == Always || (strategy == WhenFailedOrHibernated && (state == Failed || state == Hibernated))
  }

  function CleanMeta(current: Meta, desired: Meta): Meta {
    Meta(Clean(current.labels, desired.labels), Clean(current.annotations, desired.annotations), current.rest)
  }

  function Rescheduled(current: Template, desired: Template): Template {
    current.(tolerations := desired.tolerations, affinity := desired.affinity, nodeSelector := desired.nodeSelector,
             priorityClass := desired.priorityClass)
  }

  function PatchedWorkload(current: Workload, desired: Workload, applies: bool): Workload {
    var template := Rescheduled(current.template, desired.template);
    if applies
    then desired.(template := desired.template.(rest := template.rest), rest := current.rest)
    else current.(template := template, replicas := desired.replicas)
  }

  function PatchedBatch(current: Batch, desired: Batch, applies: bool): Batch {
    var template := Rescheduled(current.template, desired.template);
    desired.(template := if applies then desired.template.(labels := template.labels, rest := template.rest) else template,
             finished := false, rest := current.rest)
  }

  function PatchedVolume(current: Volume, desired: Volume): Volume {
    Volume(desired.requests, if desired.storageClass.Some? then desired.storageClass else current.storageClass, current.rest)
  }

  function PatchedBody(current: Body, desired: Body, applies: bool): Body
    requires SameKind(current, desired)
  {
    match desired
    case StatefulSet(w) => StatefulSet(PatchedWorkload(current.workload, w, applies))
    case Job(b) => Job(PatchedBatch(current.batch, b, applies))
    case Ingress(_) => if applies then desired else current
    case Claim(v) => if applies then Claim(PatchedVolume(current.volume, v)) else current
    case Service(e) => if applies then Service(e.(rest := current.endpoint.rest)) else current
  }

  function Patched(current: Child, desired: Child, applies: bool): Child
    requires SameKind(current.body, desired.body)
  {
    Child(if applies then CleanMeta(current.meta, desired.meta) else current.meta,
          PatchedBody(current.body, desired.body, applies))
  }

  /** Going from one number of replicas to the other is a scaling only between zero and one. */
  function Rescaling(current: Option<int>, desired: Option<int>): Scaling {
    if current == Some(0) && desired == Some(1) then Resumed
    else if current == Some(1) && desired == Some(0) then Suspended
    else Unscaled
  }

  /** A job that says nothing about suspension is not suspended. */
  function Resuspension(current: Option<bool>, desired: Option<bool>): Scaling {
    if current == Some(true) && desired == Some(false) then Resumed
    else if current != Some(true) && desired == Some(true) then Suspended
    else Unscaled
  }

  /** The callback that the status computation gets from this child. */
  function Callback(current: Body, desired: Body): Scaling
    requires SameKind(current, desired)
  {
    match desired
    case StatefulSet(w) => Rescaling(current.workload.replicas, w.replicas)
    case Job(b) => Resuspension(current.batch.suspend, b.suspend)
    case _ => Unscaled
  }

  /** The object in the cluster after one reconcile of it. */
  datatype Turn = Turn(stored: Option<Child>, ok: bool, callback: Scaling)

  predicate Finished(stored: Child) {
    stored.body.Job? && stored.body.batch.finished
  }

  function TurnOf(stored: Option<Child>, desired: Child, hibernated: bool, strategy: Strategy, state: State): Turn
    requires stored.Some? ==> SameKind(stored.value.body, desired.body)
  {
    if desired.body.Ingress? && hibernated then Turn(None, true, Unscaled)
    else if stored.None? then Turn(Some(desired), true, Unscaled)
    else if Finished(stored.value) then Turn(stored, true, Unscaled)
    else
      var callback := Callback(stored.value.body, desired.body);
      if strategy == Unknown then Turn(stored, false, callback)
      else Turn(Some(Patched(stored.value, desired, Applies(strategy, state))), true, callback)
  }

  // ---------------------------------------------------------------- the reconcile, field by field

  method UpdateMeta(current: Meta, desired: Meta) returns (meta: Meta)
    ensures meta == CleanMeta(current, desired)
  {
    meta := current;
    var labels := CleanWellKnown(meta.labels, desired.labels);
    meta := meta.(labels := labels);
    var annotations := CleanWellKnown(meta.annotations, desired.annotations);
    meta := meta.(annotations := annotations);
  }

  method UpdateWorkload(found: Workload, desired: Workload, applies: bool) returns (current: Workload)
    ensures current == PatchedWorkload(found, desired, applies)
  {
    current := found;
    var t := desired.template;
    current := current.(template := Rescheduled(current.template, t));
    current := current.(replicas := desired.replicas);
    if applies {
      current := current.(template := current.template.(
        containers := t.containers, initContainers := t.initContainers, volumes := t.volumes));
      current := current.(selector := desired.selector);
      current := current.(template := current.template.(labels := t.labels, annotations := t.annotations));
    }
  }

  method UpdateBatch(found: Batch, desired: Batch, applies: bool) returns (current: Batch)
    requires !found.finished
    ensures current == PatchedBatch(found, desired, applies)
  {
    current := found;
    var t := desired.template;
    current := current.(template := Rescheduled(current.template, t));
    current := current.(suspend := desired.suspend, deadline := desired.deadline, ttl := desired.ttl);
    if applies {
      current := current.(template := current.template.(
        containers := t.containers, initContainers := t.initContainers, volumes := t.volumes));
      current := current.(template := current.template.(annotations := t.annotations));
    }
  }

  /** One child as it is in the cluster. */
  class ChildResource {
    var stored: Option<Child>

    constructor ()
      ensures stored == None
    {
      stored := None;
    }

    /** An update that is refused, because the strategy is unknown, is not written. */
    method Reconcile(desired: Child, hibernated: bool, strategy: Strategy, state: State) returns (ok: bool, callback: Scaling)
      requires stored.Some? ==> SameKind(stored.value.body, desired.body)
      modifies this
      ensures Turn(stored, ok, callback) == TurnOf(old(stored), desired, hibernated, strategy, state)
      ensures desired.body.Ingress? && hibernated ==> stored == None && ok && callback == Unscaled
      ensures old(stored).None? && !(desired.body.Ingress? && hibernated) ==> stored == Some(desired) && ok && callback == Unscaled
      ensures old(stored).Some? && Finished(old(stored).value) ==> stored == old(stored) && ok && callback == Unscaled
      ensures old(stored).Some? && !(desired.body.Ingress? && hibernated) && !Finished(old(stored).value) ==>
                (ok <==> strategy != Unknown) && (!ok ==> stored == old(stored))
    {
      ok, callback := true, Unscaled;
      if desired.body.Ingress? && hibernated {
        stored := None;
        return;
      }
      if stored.None? {
        stored := Some(desired);
        return;
      }
      var current := stored.value;
      if current.body.Job? && current.body.batch.finished {
        return;
      }
      var applies := strategy == Always || (strategy == WhenFailedOrHibernated && (state == Failed || state == Hibernated));
      match desired.body {
        case StatefulSet(w) =>
          callback := Rescaling(current.body.workload.replicas, w.replicas);
          var workload := UpdateWorkload(current.body.workload, w, applies);
          current := current.(body := StatefulSet(workload));
        case Job(b) =>
          callback := Resuspension(current.body.batch.suspend, b.suspend);
          var batch := UpdateBatch(current.body.batch, b, applies);
          current := current.(body := Job(batch));
        case Ingress(_) =>
          if applies {
            current := current.(body := desired.body);
          }
        case Claim(v) =>
          if applies {
            var volume := current.body.volume;
            volume := volume.(requests := v.requests);
            if v.storageClass.Some? {
              volume := volume.(storageClass := v.storageClass);
            }
            current := current.(body := Claim(volume));
          }
        case Service(e) =>
          if applies {
            var endpoint := current.body.endpoint;
            endpoint := endpoint.(ports := e.ports);
            endpoint := endpoint.(selector := e.selector);
            current := current.(body := Service(endpoint));
          }
      }
      if strategy == Unknown {
        ok := false;
        return;
      }
      if applies {
        var meta := UpdateMeta(current.meta, desired.meta);
        current := current.(meta := meta);
      }
      stored := Some(current);
    }
  }

  // ---------------------------------------------------------------- repeated reconciles

  lemma MetaSettles(current: Meta, desired: Meta)
    ensures CleanMeta(CleanMeta(current, desired), desired) == CleanMeta(current, desired)
    ensures CleanMeta(desired, desired) == desired
  {
    CleanTwice(current.labels, desired.labels, desired.labels);
    CleanTwice(current.annotations, desired.annotations, desired.annotations);
  }

  lemma BodySettles(current: Body, desired: Body, applies: bool)
    requires SameKind(current, desired) && !(desired.Job? && desired.batch.finished)
    ensures var once := PatchedBody(current, desired, applies);
            && SameKind(once, desired)
            && Callback(once, desired) == Unscaled
            && PatchedBody(once, desired, applies) == once
    ensures Callback(desired, desired) == Unscaled && PatchedBody(desired, desired, applies) == desired
  {
  }

  /** Reconciling again towards the same manifest changes nothing and raises no callback, whatever
      the first pass found and did.  Only a pass with an unknown strategy is not settled. */
  lemma ReconcileSettles(stored: Option<Child>, desired: Child, hibernated: bool, strategy: Strategy, state: State)
    requires stored.Some? ==> SameKind(stored.value.body, desired.body)
    requires !Finished(desired)
    ensures var once := TurnOf(stored, desired, hibernated, strategy, state);
            && (once.stored.Some? ==> SameKind(once.stored.value.body, desired.body))
            && (once.ok && strategy != Unknown ==>
                  TurnOf(once.stored, desired, hibernated, strategy, state) == Turn(once.stored, true, Unscaled))
            && (!once.ok ==> strategy == Unknown && once.stored == stored)
  {
    var from := if stored.Some? then stored.value else desired;
    MetaSettles(from.meta, desired.meta);
    BodySettles(from.body, desired.body, Applies(strategy, state));
  }

  /** The part of an object that the operator answers for. */
  function Managed(b: Body): Body {
    match b
    case StatefulSet(w) => StatefulSet(w.(rest := "", template := w.template.(rest := "")))
    case Job(j) => Job(j.(rest := "", template := j.template.(rest := "", labels := map[])))
    case Claim(v) => Claim(v.(rest := ""))
    case Service(e) => Service(e.(rest := ""))
    case Ingress(_) => b
  }

  /** Where the strategy applies, the manifest wins: the managed part is the desired one, except that
      a volume claim without a desired storage class keeps the one it has, and so are all labels and
      annotations that are not well known.  What is written only on creation stays. */
  lemma ManifestWins(stored: Child, desired: Child, hibernated: bool, strategy: Strategy, state: State, key: string)
    requires SameKind(stored.body, desired.body) && !Finished(stored) && !Finished(desired)
    requires strategy == Always || (strategy == WhenFailedOrHibernated && (state == Failed || state == Hibernated))
    requires !(desired.body.Ingress? && hibernated)
    ensures var after := TurnOf(Some(stored), desired, hibernated, strategy, state).stored.value;
            && (if desired.body.Claim? && desired.body.volume.storageClass.None?
                then Managed(after.body) == Claim(Volume(desired.body.volume.requests, stored.body.volume.storageClass, ""))
                else Managed(after.body) == Managed(desired.body))
            && Unmanaged(after.body) == Unmanaged(stored.body) && after.meta.rest == stored.meta.rest
            && (!WellKnown(key) ==> SameEntry(after.meta.labels, desired.meta.labels, key))
            && (!WellKnown(key) ==> SameEntry(after.meta.annotations, desired.meta.annotations, key))
  {
    CleanAt(stored.meta.labels, desired.meta.labels, key);
    CleanAt(stored.meta.annotations, desired.meta.annotations, key);
  }

  /** What the operator leaves to the cluster once the object exists. */
  function Unmanaged(b: Body): (string, string, Labels) {
    match b
    case StatefulSet(w) => (w.rest, w.template.rest, map[])
    case Job(j) => (j.rest, j.template.rest, j.template.labels)
    case Claim(v) => (v.rest, "", map[])
    case Service(e) => (e.rest, "", map[])
    case Ingress(_) => ("", "", map[])
  }

  /** Whatever the strategy, as long as there is one, replicas, suspension, job limits and scheduling
      follow the manifest. */
  lemma SchedulingFollows(stored: Child, desired: Child, hibernated: bool, strategy: Strategy, state: State)
    requires SameKind(stored.body, desired.body) && !Finished(stored) && strategy != Unknown
    ensures var after := TurnOf(Some(stored), desired, hibernated, strategy, state);
            match desired.body
            case StatefulSet(w) =>
              && after.stored.value.body.workload.replicas == w.replicas
              && SameScheduling(after.stored.value.body.workload.template, w.template)
              && (after.callback == Resumed <==> stored.body.workload.replicas == Some(0) && w.replicas == Some(1))
              && (after.callback == Suspended <==> stored.body.workload.replicas == Some(1) && w.replicas == Some(0))
            case Job(j) =>
              && after.stored.value.body.batch.suspend == j.suspend
              && after.stored.value.body.batch.deadline == j.deadline && after.stored.value.body.batch.ttl == j.ttl
              && SameScheduling(after.stored.value.body.batch.template, j.template)
              && (after.callback == Resumed <==> stored.body.batch.suspend == Some(true) && j.suspend == Some(false))
              && (after.callback == Suspended <==> stored.body.batch.suspend != Some(true) && j.suspend == Some(true))
            case _ => after.callback == Unscaled
  {
  }

  predicate SameScheduling(a: Template, b: Template) {
    && a.tolerations == b.tolerations && a.affinity == b.affinity && a.nodeSelector == b.nodeSelector
    && a.priorityClass == b.priorityClass
  }

  predicate SameEntry(a: Labels, b: Labels, key: string) {
    (key in a <==> key in b) && (key in a ==> a[key] == b[key])
  }

  /** What the status computation assumes about replicas is what the StatefulSet's reconcile does. */
  lemma CallbackMatchesStatus(stored: Child, desired: Child, spec: Spec, obs: Observation)
    requires stored.body.StatefulSet? && desired.body.StatefulSet?
    requires desired.body.workload.replicas == Some(Replicas(spec))
    requires spec.sessionType.Interactive? && obs.statefulSet == Present(stored.body.workload.replicas) && spec.strategy != Unknown
    ensures forall state ::
              var turn := TurnOf(Some(stored), desired, spec.hibernated, spec.strategy, state);
              turn.callback == ScalingOf(spec, obs) && turn.stored.value.body.workload.replicas == Some(Replicas(spec))
  {
  }

  /** One pass over an existing child: the manifest and the state it was made with. */
  datatype Pass = Pass(desired: Child, hibernated: bool, strategy: Strategy, state: State)

  ghost predicate Passes(passes: seq<Pass>, run: seq<Option<Child>>) {
    && |run| == |passes| + 1
    && forall i {:trigger passes[i]} :: 0 <= i < |passes| ==>
         && (run[i].Some? ==> SameKind(run[i].value.body, passes[i].desired.body))
         && run[i + 1] == TurnOf(run[i], passes[i].desired, passes[i].hibernated, passes[i].strategy, passes[i].state).stored
  }

  /** Over any passes, towards any manifests and under any strategies, a well-known label of a child
      that is not deleted keeps its value: not even the operator changes one it has set. */
  lemma {:induction false} WellKnownNeverChanges(passes: seq<Pass>, run: seq<Option<Child>>, i: nat, j: nat, key: string)
    requires Passes(passes, run) && i <= j < |run|
    requires forall k :: i <= k <= j ==> run[k].Some?
    requires WellKnown(key) && key in run[i].value.meta.labels
    ensures key in run[j].value.meta.labels && run[j].value.meta.labels[key] == run[i].value.meta.labels[key]
  {
    if i < j {
      WellKnownNeverChanges(passes, run, i, j - 1, key);
      var p := passes[j - 1];
      assert run[j - 1 + 1] == TurnOf(run[j - 1], p.desired, p.hibernated, p.strategy, p.state).stored;
    }
  }

  /** What a running pod would have to be restarted for. */
  function PodOf(t: Template): Template {
    t.(tolerations := "", affinity := "", nodeSelector := "", priorityClass := "")
  }

  /** While the strategy does not apply, a pass leaves the pod template alone but for scheduling,
      and the labels altogether. */
  lemma UntouchedUnlessApplies(stored: Child, p: Pass)
    requires SameKind(stored.body, p.desired.body)
    requires p.strategy != Always && (p.strategy == WhenFailedOrHibernated ==> p.state != Failed && p.state != Hibernated)
    requires !(p.desired.body.Ingress? && p.hibernated)
    ensures var after := TurnOf(Some(stored), p.desired, p.hibernated, p.strategy, p.state).stored.value;
            && after.meta == stored.meta
            && match stored.body
               case StatefulSet(w) => PodOf(after.body.workload.template) == PodOf(w.template) && Unmanaged(after.body) == Unmanaged(stored.body)
               case Job(b) => PodOf(after.body.batch.template) == PodOf(b.template) && Unmanaged(after.body) == Unmanaged(stored.body)
               case _ => after == stored
  {
  }
}
