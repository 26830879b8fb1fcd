/** The git proxy's token store: its locking, and its sequential behaviour. */
module TokenStore {
  import opened Expiry
  import opened RefreshTokens
  import opened RWLocks
  import opened Wrappers

  // ---------------------------------------------------------------- locking

  const GIT: LockId := 0
  const RENKU: LockId := 1

  function ValidRenkuToken(ok: Prog, err: Prog): Prog {
    var read := ReadSection(RENKU, ok);
    ReadSection(RENKU, Either(err, Either(read, RefreshSection(RENKU, read, err))))
  }

  /** The git lock is held across the exchange with renku. */
  function RefreshGitToken(ok: Prog, err: Prog): Prog {
    var fail := Then(Unlock(GIT), err);
    Then(Lock(GIT), Either(fail, ValidRenkuToken(Then(Local, Either(fail, Then(Local, Then(Unlock(GIT), ok)))), fail)))
  }

  function GetGitToken(): Prog {
    var read := ReadSection(GIT, Done);
    ReadSection(GIT, Either(read, RefreshGitToken(read, Done)))
  }

  /** One turn of the endless loop that keeps the refresh token alive. */
  function PeriodicRefresh(): Prog {
    ReadSection(RENKU, Either(Done, RefreshSection(RENKU, Done, Done)))
  }

  lemma ValidRenkuDisciplined(ok: Prog, err: Prog, w: set<LockId>)
    requires Above(RENKU, w)
    requires Disciplined(ok, RENKU, {}, w, false) && Disciplined(err, RENKU, {}, w, false)
    ensures Disciplined(ValidRenkuToken(ok, err), RENKU, {}, w, false)
  {
    var read := ReadSection(RENKU, ok);
    ReadSectionDisciplined(RENKU, ok, RENKU, w);
    RefreshSectionDisciplined(RENKU, read, err, w);
    ReadSectionDisciplined(RENKU, Either(err, Either(read, RefreshSection(RENKU, read, err))), RENKU, w);
  }

  lemma RefreshGitDisciplined(ok: Prog, err: Prog)
    requires Disciplined(ok, RENKU, {}, {}, false) && Disciplined(err, RENKU, {}, {}, false)
    ensures Disciplined(RefreshGitToken(ok, err), RENKU, {}, {}, false)
  {
    UnlockDisciplined(GIT, ok, RENKU, {});
    UnlockDisciplined(GIT, err, RENKU, {});
    var fail := Then(Unlock(GIT), err);
    var exchange := Then(Local, Either(fail, Then(Local, Then(Unlock(GIT), ok))));
    assert Disciplined(exchange, RENKU, {}, {} + {GIT}, false);
    ValidRenkuDisciplined(exchange, fail, {} + {GIT});
    var none: set<LockId> := {}; assert none + none == none;
  }

  lemma ProgramsDisciplined()
    ensures AllDisciplined(PROGRAMS, RENKU)
  {
    var read := ReadSection(GIT, Done);
    ReadSectionDisciplined(GIT, Done, RENKU, {});
    RefreshGitDisciplined(read, Done);
    ReadSectionDisciplined(GIT, Either(read, RefreshGitToken(read, Done)), RENKU, {});
    RefreshSectionDisciplined(RENKU, Done, Done, {});
    ReadSectionDisciplined(RENKU, Either(Done, RefreshSection(RENKU, Done, Done)), RENKU, {});
  }

  const PROGRAMS: set<Prog> := {GetGitToken(), PeriodicRefresh()}

  /** Any number of callers and periodic refreshers: an unfinished call always has a step to take,
      its own or that of a call in its way. */
  lemma StoreNeverDeadlocks(mode: Mode, run: seq<System>, k: nat, busy: nat) returns (t: nat)
    requires Run(mode, PROGRAMS, run) && k < |run|
    requires busy < |run[k].threads| && !run[k].threads[busy].prog.Done?
    ensures t < |run[k].threads| && !run[k].threads[t].prog.Done?
    ensures Enabled(run[k].threads, run[k].threads[t])
  {
    ProgramsDisciplined();
    t := NoDeadlock(mode, PROGRAMS, RENKU, run, k, busy);
  }

  /** A superseded refresh token is never presented, as long as no answer gets lost between the
      server and the store and, for "v2", every answer carries a refresh token. */
  lemma StorePresentsLatest(mode: Mode, run: seq<System>, k: nat, r: nat)
    requires mode == StoreOpenID || mode == StoreV2
    requires Run(mode, PROGRAMS, run) && k < |run| && r < |run[k].tokens.answered|
    ensures var a := run[k].tokens.answered;
            var before := OutcomesOf(a[..r]);
            && (a[r].carried == a[r].latest <==> InStep(mode, before))
            && (Lost !in before && (mode == StoreV2 ==> Received(false) !in before) ==> a[r].carried == a[r].latest)
  {
    ProgramsDisciplined();
    RequestsCarryLatest(mode, PROGRAMS, RENKU, run, k, r);
    var before := OutcomesOf(run[k].tokens.answered[..r]);
    if Lost !in before && (mode == StoreV2 ==> Received(false) !in before) {
      StaysInStep(mode, before);
    }
  }

  /** A caller can come to hold both write locks with a refresh request under way: the git lock is
      kept while the renku token is refreshed. */
  lemma RefreshUnderBothLocks(mode: Mode) returns (run: seq<System>, k: nat)
    ensures Run(mode, PROGRAMS, run) && k < |run| && |run[k].threads| == 1
    ensures run[k].threads[0].wlocks == {GIT, RENKU} && run[k].threads[0].inflight == Request(1)
  {
    var tokens := FirstTokens();
    var read := ReadSection(GIT, Done);
    var fail := Then(Unlock(GIT), Done);
    var exchange := Then(Local, Either(fail, Then(Local, Then(Unlock(GIT), read))));
    var refresh, valid := RefreshGitToken(read, Done), ValidRenkuToken(exchange, fail);
    run := [Alone(IDLE, tokens)];
    run := Begun(mode, PROGRAMS, run, GetGitToken(), tokens);
    run := ReadThrough(mode, PROGRAMS, run, IDLE.(prog := GetGitToken()), GIT, Either(read, refresh), tokens);
    run := OneStep(mode, PROGRAMS, run, IDLE.(prog := Either(read, refresh)), tokens, IDLE.(prog := refresh), tokens);
    run := LockTaken(mode, PROGRAMS, run, IDLE.(prog := refresh), GIT, Either(fail, valid), tokens);
    assert {} + {GIT} == {GIT} && {GIT} + {RENKU} == {GIT, RENKU};
    var inside := IDLE.(prog := valid, wlocks := {GIT});
    run := OneStep(mode, PROGRAMS, run, inside.(prog := Either(fail, valid)), tokens, inside, tokens);
    var read' := ReadSection(RENKU, exchange);
    var expired := Either(read', RefreshSection(RENKU, read', fail));
    run := ReadThrough(mode, PROGRAMS, run, inside, RENKU, Either(fail, expired), tokens);
    run := OneStep(mode, PROGRAMS, run, inside.(prog := Either(fail, expired)), tokens, inside.(prog := expired), tokens);
    inside := inside.(prog := RefreshSection(RENKU, read', fail));
    run := OneStep(mode, PROGRAMS, run, inside.(prog := expired), tokens, inside, tokens);
    var sent;
    run, sent := RefreshSent(mode, PROGRAMS, run, inside, RENKU, read', fail, tokens);
    k := |run| - 1;
  }

  /** So does the periodic refresh, under the renku lock alone. */
  lemma RefreshFromTimeToTime(mode: Mode) returns (run: seq<System>, k: nat)
    ensures Run(mode, PROGRAMS, run) && k < |run| && |run[k].threads| == 1
    ensures run[k].threads[0].wlocks == {RENKU} && run[k].threads[0].inflight == Request(1)
  {
    var tokens := FirstTokens();
    var due := RefreshSection(RENKU, Done, Done);
    run := [Alone(IDLE, tokens)];
    run := Begun(mode, PROGRAMS, run, PeriodicRefresh(), tokens);
    run := ReadThrough(mode, PROGRAMS, run, IDLE.(prog := PeriodicRefresh()), RENKU, Either(Done, due), tokens);
    run := OneStep(mode, PROGRAMS, run, IDLE.(prog := Either(Done, due)), tokens, IDLE.(prog := due), tokens);
    var sent;
    run, sent := RefreshSent(mode, PROGRAMS, run, IDLE.(prog := due), RENKU, Done, Done, tokens);
    assert {} + {RENKU} == {RENKU};
    k := |run| - 1;
  }

  // ---------------------------------------------------------------- one call, undisturbed

  type Provider = string

  datatype GitToken = GitToken(token: string, expiresAt: Time)

  /** A JSON web token: unreadable, or with an expiry claim that may be missing (0). */
  datatype Jwt = Unreadable | Jwt(id: Token, expiresAt: Time)

  /** The answer of the renku token endpoint: an error, or an access token and a refresh token. */
  datatype RenkuAnswer = Refused | Granted(access: Jwt, refresh: Token)

  datatype GitAnswer = NoGitToken | Fresh(token: GitToken)

  function VerifyJwt(t: Jwt, now: Time, leeway: nat): Result<bool> {
    if t.Unreadable? then Err else Ok(IsNotExpired(now, t.expiresAt, leeway, false))
  }

  predicate Usable(tokens: map<Provider, GitToken>, p: Provider, now: Time, leeway: nat) {
    p in tokens && IsNotExpired(now, tokens[p].expiresAt, leeway, false)
  }

  class Store {
    const v2: bool
    const leeway: nat
    var renkuAccess: Jwt
    var renkuRefresh: Token
    var gitTokens: map<Provider, GitToken>

    constructor (v2: bool, leeway: nat, access: Jwt, refresh: Token)
      ensures this.v2 == v2 && this.leeway == leeway
      ensures renkuAccess == access && renkuRefresh == refresh && gitTokens == map[]
    {
      this.v2, this.leeway := v2, leeway;
      renkuAccess, renkuRefresh, gitTokens := access, refresh, map[];
    }

    function Client(): Mode {
      if v2 then StoreV2 else StoreOpenID
    }

    method RefreshRenku(answer: RenkuAnswer) returns (ok: bool)
      modifies `renkuAccess, `renkuRefresh
      ensures ok == answer.Granted?
      ensures ok ==> renkuAccess == answer.access && renkuRefresh == Keep(Client(), old(renkuRefresh), answer.refresh)
      ensures !ok ==> renkuAccess == old(renkuAccess) && renkuRefresh == old(renkuRefresh)
    {
      if answer.Refused? {
        return false;
      }
      renkuAccess := answer.access;
      if v2 || answer.refresh != NO_TOKEN {
        renkuRefresh := answer.refresh;
      }
      ok := true;
    }

    /** The token is handed out if it is still good, and refreshed first if it is not.  A refreshed
        token is handed out whatever its own expiry. */
    method GetValidRenku(now: Time, answer: RenkuAnswer) returns (token: Result<Jwt>)
      modifies `renkuAccess, `renkuRefresh
      ensures token.Ok? ==> token.value == renkuAccess
      ensures VerifyJwt(old(renkuAccess), now, leeway) ==
              if old(renkuAccess).Unreadable? then Err
              else Ok(old(renkuAccess).expiresAt == 0 || now + leeway < old(renkuAccess).expiresAt)
      ensures VerifyJwt(old(renkuAccess), now, leeway) == Ok(true) ==>
                token.Ok? && renkuAccess == old(renkuAccess) && renkuRefresh == old(renkuRefresh)
      ensures old(renkuAccess).Unreadable? ==>
                token.Err? && renkuAccess == old(renkuAccess) && renkuRefresh == old(renkuRefresh)
      ensures VerifyJwt(old(renkuAccess), now, leeway) == Ok(false) ==>
                && token.Ok? == answer.Granted?
                && (token.Ok? ==> renkuAccess == answer.access && renkuRefresh == Keep(Client(), old(renkuRefresh), answer.refresh))
                && (token.Err? ==> renkuAccess == old(renkuAccess) && renkuRefresh == old(renkuRefresh))
    {
      var valid := VerifyJwt(renkuAccess, now, leeway);
      if valid.Err? {
        return Err;
      }
      if !valid.value {
        var ok := RefreshRenku(answer);
        if !ok {
          return Err;
        }
      }
      token := Ok(renkuAccess);
    }

    /** A usable cached token costs no request and changes nothing.  Otherwise the fresh token is
        stored and returned, other providers keep theirs, and after an error every provider does. */
    method GetGit(p: Provider, now: Time, renku: RenkuAnswer, git: GitAnswer) returns (token: Result<string>)
      modifies this
      ensures Usable(old(gitTokens), p, now, leeway) <==>
                p in old(gitTokens) && (old(gitTokens)[p].expiresAt == 0 || now + leeway < old(gitTokens)[p].expiresAt)
      ensures Usable(old(gitTokens), p, now, leeway) ==>
                && token == Ok(old(gitTokens)[p].token) && gitTokens == old(gitTokens)
                && renkuAccess == old(renkuAccess) && renkuRefresh == old(renkuRefresh)
      ensures !Usable(old(gitTokens), p, now, leeway) ==>
                (token.Ok? <==>
                  && git.Fresh?
                  && old(renkuAccess) != Unreadable
                  && (VerifyJwt(old(renkuAccess), now, leeway) == Ok(true) || renku.Granted?))
      ensures !Usable(old(gitTokens), p, now, leeway) && token.Ok? ==>
                && token.value == git.token.token && gitTokens == old(gitTokens)[p := git.token]
      ensures token.Err? ==> gitTokens == old(gitTokens)
    {
      if !(p in gitTokens && IsNotExpired(now, gitTokens[p].expiresAt, leeway, false)) {
        var access := GetValidRenku(now, renku);
        if access.Err? || git.NoGitToken? {
          return Err;
        }
        gitTokens := gitTokens[p := git.token];
      }
      token := Ok(gitTokens[p].token);
    }
  }
}
