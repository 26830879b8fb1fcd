/** The secrets a session has adopted, and the finalizer that holds the session's deletion back until
    they are gone. */
module Finalizer {
  import opened Wrappers

  // ---------------------------------------------------------------- adopted secrets

  datatype Ref = Ref(name: string, adopt: bool)

  datatype Repository = Repository(cloningConfig: Option<Ref>, config: Option<Ref>)

  /** Where a session's spec mentions secrets. */
  datatype Refs = Refs(
    tls: Option<Ref>,
    authEnabled: bool,
    auth: Option<Ref>,
    remote: Option<Ref>,
    dataSources: seq<Option<Ref>>,
    repositories: seq<Repository>,
    imagePull: seq<Ref>)

  predicate IsAdopted(ref: Option<Ref>) {
    ref.Some? && ref.value.name != "" && ref.value.adopt
  }

  /** The spec asks for the secret with this name to go when the session goes. */
  predicate Adopts(refs: Refs, name: string) {
    || Names(refs.tls, name)
    || (refs.authEnabled && Names(refs.auth, name))
    || Names(refs.remote, name)
    || (exists i :: 0 <= i < |refs.dataSources| && Names(refs.dataSources[i], name))
    || InRepositories(refs.repositories, name)
    || (exists i :: 0 <= i < |refs.imagePull| && Names(Some(refs.imagePull[i]), name))
  }

  predicate Names(ref: Option<Ref>, name: string) {
    ref.Some? && ref.value.adopt && ref.value.name == name && name != ""
  }

  predicate InRepository(r: Repository, name: string) {
    Names(r.cloningConfig, name) || Names(r.config, name)
  }

  predicate InRepositories(refs: seq<Repository>, name: string) {
    exists i :: 0 <= i < |refs| && InRepository(refs[i], name)
  }

  function One(ref: Option<Ref>): seq<string> {
    if IsAdopted(ref) then [ref.value.name] else []
  }

  function OfSources(refs: seq<Option<Ref>>): seq<string> {
    if refs == [] then [] else OfSources(refs[..|refs| - 1]) + One(refs[|refs| - 1])
  }

  function OfRepository(r: Repository): seq<string> {
    One(r.cloningConfig) + One(r.config)
  }

  function OfRepositories(refs: seq<Repository>): seq<string> {
    if refs == [] then [] else OfRepositories(refs[..|refs| - 1]) + OfRepository(refs[|refs| - 1])
  }

  function OfImagePull(refs: seq<Ref>): seq<string> {
    if refs == [] then [] else OfImagePull(refs[..|refs| - 1]) + One(Some(refs[|refs| - 1]))
  }

  function OfSession(refs: Refs): seq<string> {
    One(refs.tls) + (if refs.authEnabled then One(refs.auth) else []) + One(refs.remote)
  }

  /** In the order in which the operator lists, and later deletes, them. */
  function Adopted(refs: Refs): seq<string> {
    OfSession(refs) + OfSources(refs.dataSources) + OfRepositories(refs.repositories) + OfImagePull(refs.imagePull)
  }

  lemma {:induction false} SourcesExact(refs: seq<Option<Ref>>, name: string)
    ensures name in OfSources(refs) <==> exists i :: 0 <= i < |refs| && Names(refs[i], name)
  {
    if refs != [] {
      SourcesExact(refs[..|refs| - 1], name);
      assert Names(refs[|refs| - 1], name) <==> name in One(refs[|refs| - 1]);
    }
  }

  lemma InOneMore(front: seq<Repository>, last: Repository, name: string)
    ensures InRepositories(front + [last], name) <==> InRepositories(front, name) || InRepository(last, name)
  {
    var refs := front + [last];
    assert refs[|front|] == last;
    assert forall i :: 0 <= i < |front| ==> refs[i] == front[i];
  }

  lemma {:induction false} RepositoriesExact(refs: seq<Repository>, name: string)
    ensures name in OfRepositories(refs) <==> InRepositories(refs, name)
  {
    if refs != [] {
      var front, last := refs[..|refs| - 1], refs[|refs| - 1];
      RepositoriesExact(front, name);
      InOneMore(front, last, name);
      assert refs == front + [last];
      assert InRepository(last, name) <==> name in OfRepository(last);
    }
  }

  lemma {:induction false} ImagePullExact(refs: seq<Ref>, name: string)
    ensures name in OfImagePull(refs) <==> exists i :: 0 <= i < |refs| && Names(Some(refs[i]), name)
  {
    if refs != [] {
      ImagePullExact(refs[..|refs| - 1], name);
      assert Names(Some(refs[|refs| - 1]), name) <==> name in One(Some(refs[|refs| - 1]));
    }
  }

  /** The list names exactly the secrets that some part of the spec adopts. */
  lemma AdoptedExact(refs: Refs, name: string)
    ensures name in Adopted(refs) <==> Adopts(refs, name)
  {
    SourcesExact(refs.dataSources, name);
    RepositoriesExact(refs.repositories, name);
    ImagePullExact(refs.imagePull, name);
  }

  method AddSources(start: seq<string>, refs: seq<Option<Ref>>) returns (names: seq<string>)
    ensures names == start + OfSources(refs)
  {
    names := start;
    for i := 0 to |refs|
      invariant names == start + OfSources(refs[..i])
    {
      assert refs[..i + 1][..i] == refs[..i];
      if IsAdopted(refs[i]) {
        names := names + [refs[i].value.name];
      }
    }
    assert refs[..|refs|] == refs;
  }

  method AddRepository(start: seq<string>, r: Repository) returns (names: seq<string>)
    ensures names == start + OfRepository(r)
  {
    names := start;
    if IsAdopted(r.cloningConfig) {
      names := names + [r.cloningConfig.value.name];
    }
    if IsAdopted(r.config) {
      names := names + [r.config.value.name];
    }
  }

  lemma RepositoriesNext(refs: seq<Repository>, i: nat)
    requires i < |refs|
    ensures OfRepositories(refs[..i + 1]) == OfRepositories(refs[..i]) + OfRepository(refs[i])
  {
    assert refs[..i + 1][..i] == refs[..i];
  }

  method AddRepositories(start: seq<string>, refs: seq<Repository>) returns (names: seq<string>)
    ensures names == start + OfRepositories(refs)
  {
    names := start;
    for i := 0 to |refs|
      invariant names == start + OfRepositories(refs[..i])
    {
      RepositoriesNext(refs, i);
      assert (start + OfRepositories(refs[..i])) + OfRepository(refs[i]) == start + (OfRepositories(refs[..i]) + OfRepository(refs[i]));
      names := AddRepository(names, refs[i]);
    }
    assert refs[..|refs|] == refs;
  }

  method AddImagePull(start: seq<string>, refs: seq<Ref>) returns (names: seq<string>)
    ensures names == start + OfImagePull(refs)
  {
    names := start;
    for i := 0 to |refs|
      invariant names == start + OfImagePull(refs[..i])
    {
      assert refs[..i + 1][..i] == refs[..i];
      if IsAdopted(Some(refs[i])) {
        names := names + [refs[i].name];
      }
    }
    assert refs[..|refs|] == refs;
  }

  method AdoptedSecrets(refs: Refs) returns (names: seq<string>)
    ensures names == Adopted(refs)
  {
    names := [];
    if IsAdopted(refs.tls) {
      names := names + [refs.tls.value.name];
    }
    if refs.authEnabled && IsAdopted(refs.auth) {
      names := names + [refs.auth.value.name];
    }
    if IsAdopted(refs.remote) {
      names := names + [refs.remote.value.name];
    }
    assert names == OfSession(refs);
    names := AddSources(names, refs.dataSources);
    names := AddRepositories(names, refs.repositories);
    names := AddImagePull(names, refs.imagePull);
  }

  // ---------------------------------------------------------------- deleting them

  /** What the API server does with one delete call.  `Refused` covers every error but "not found";
      the secret may be gone even so. */
  datatype Answer = Done | NotFound | Refused(gone: bool)

  function Without(secrets: set<string>, name: string, a: Answer): set<string> {
    if a == Refused(false) then secrets else secrets - {name}
  }

  /** The secrets left after `n` delete calls. */
  function Left(secrets: set<string>, names: seq<string>, answers: seq<Answer>, n: nat): set<string>
    requires n <= |names| == |answers|
  {
    if n == 0 then secrets else Without(Left(secrets, names, answers, n - 1), names[n - 1], answers[n - 1])
  }

  predicate Refuses(answers: seq<Answer>) {
    exists i :: 0 <= i < |answers| && answers[i].Refused?
  }

  /** Some call for this name did its work. */
  predicate Deleted(names: seq<string>, answers: seq<Answer>, n: nat, name: string)
    requires n <= |names| == |answers|
  {
    exists i :: 0 <= i < n && names[i] == name && answers[i] != Refused(false)
  }

  lemma DeletedNext(names: seq<string>, answers: seq<Answer>, n: nat, name: string)
    requires n < |names| == |answers|
    ensures Deleted(names, answers, n + 1, name) <==>
            Deleted(names, answers, n, name) || (names[n] == name && answers[n] != Refused(false))
  {
  }

  /** Whatever goes wrong in between, exactly those secrets go whose own call did its work. */
  lemma {:induction false} LeftExact(secrets: set<string>, names: seq<string>, answers: seq<Answer>, n: nat, name: string)
    requires n <= |names| == |answers|
    ensures name in Left(secrets, names, answers, n) <==> name in secrets && !Deleted(names, answers, n, name)
  {
    if n > 0 {
      LeftExact(secrets, names, answers, n - 1, name);
      DeletedNext(names, answers, n - 1, name);
    }
  }

  lemma AllGone(secrets: set<string>, refs: Refs, answers: seq<Answer>)
    requires |answers| == |Adopted(refs)| && !Refuses(answers)
    ensures forall name :: name in Left(secrets, Adopted(refs), answers, |answers|) <==> name in secrets && !Adopts(refs, name)
  {
    var names := Adopted(refs);
    forall name
      ensures name in Left(secrets, names, answers, |answers|) <==> name in secrets && !Adopts(refs, name)
    {
      LeftExact(secrets, names, answers, |names|, name);
      AdoptedExact(refs, name);
    }
  }

  lemma EachExact(secrets: set<string>, names: seq<string>, answers: seq<Answer>)
    requires |names| == |answers|
    ensures forall name :: name in Left(secrets, names, answers, |names|) <==>
                           name in secrets && !Deleted(names, answers, |names|, name)
  {
    forall name
      ensures name in Left(secrets, names, answers, |names|) <==> name in secrets && !Deleted(names, answers, |names|, name)
    {
      LeftExact(secrets, names, answers, |names|, name);
    }
  }

  /** The secrets in the session's namespace. */
  class Namespace {
    var secrets: set<string>

    constructor (secrets: set<string>)
      ensures this.secrets == secrets
    {
      this.secrets := secrets;
    }

    /** Every adopted secret is tried, also after a failure; success means that none is left. */
    method DeleteSecrets(refs: Refs, answers: seq<Answer>) returns (ok: bool)
      requires |answers| == |Adopted(refs)|
      modifies this
      ensures forall name :: name in secrets <==>
                             name in old(secrets) && !Deleted(Adopted(refs), answers, |answers|, name)
      ensures ok <==> forall i :: 0 <= i < |answers| ==> !answers[i].Refused?
      ensures ok ==> forall name :: name in secrets <==> name in old(secrets) && !Adopts(refs, name)
    {
      var names := AdoptedSecrets(refs);
      ok := true;
      for i := 0 to |names|
        invariant secrets == Left(old(secrets), names, answers, i)
        invariant ok <==> forall j :: 0 <= j < i ==> !answers[j].Refused?
      {
        secrets := Without(secrets, names[i], answers[i]);
        if answers[i].Refused? {
          ok := false;
        }
      }
      EachExact(old(secrets), names, answers);
      if ok {
        AllGone(old(secrets), refs, answers);
      }
    }
  }
}
