/** The remote session controller's renku authentication: two locks that are never held together, and
    a refresh token that only the "v2" client rotates. */
module RenkuAuth {
  import opened Expiry
  import opened RefreshTokens
  import opened RWLocks
  import opened Wrappers

  const RENKU: LockId := 0
  const ACCESS: LockId := 1

  function GetRenku(ok: Prog, err: Prog): Prog {
    ReadSection(RENKU, Either(ok, RefreshSection(RENKU, ReadSection(RENKU, ok), err)))
  }

  function RefreshAccess(ok: Prog, err: Prog): Prog {
    var fail := Then(Unlock(ACCESS), err);
    GetRenku(Then(Lock(ACCESS), Then(Local, Either(fail, Then(Local, Then(Unlock(ACCESS), ok))))), err)
  }

  function GetAccess(): Prog {
    var read := ReadSection(ACCESS, Done);
    ReadSection(ACCESS, Either(Done, RefreshAccess(read, Done)))
  }

  function PeriodicRefresh(): Prog {
    ReadSection(RENKU, Either(Done, RefreshSection(RENKU, Done, Done)))
  }

  const PROGRAMS: set<Prog> := {GetAccess(), PeriodicRefresh()}

  lemma RefreshAccessDisciplined(ok: Prog, err: Prog)
    requires Disciplined(ok, RENKU, {}, {}, false) && Disciplined(err, RENKU, {}, {}, false)
    ensures Disciplined(RefreshAccess(ok, err), RENKU, {}, {}, false)
  {
    UnlockDisciplined(ACCESS, ok, RENKU, {});
    UnlockDisciplined(ACCESS, err, RENKU, {});
    var exchange := Either(Then(Unlock(ACCESS), err), Then(Local, Then(Unlock(ACCESS), ok)));
    assert Disciplined(Then(Local, exchange), RENKU, {}, {} + {ACCESS}, false);
    var locked := Then(Lock(ACCESS), Then(Local, exchange));
    assert Disciplined(locked, RENKU, {}, {}, false) by {
      var none: set<LockId> := {}; assert none + none == none;
    }
    var read := ReadSection(RENKU, locked);
    ReadSectionDisciplined(RENKU, locked, RENKU, {});
    RefreshSectionDisciplined(RENKU, read, err, {});
    ReadSectionDisciplined(RENKU, Either(locked, RefreshSection(RENKU, read, err)), RENKU, {});
  }

  lemma ProgramsDisciplined()
    ensures AllDisciplined(PROGRAMS, RENKU)
  {
    var read := ReadSection(ACCESS, Done);
    ReadSectionDisciplined(ACCESS, Done, RENKU, {});
    RefreshAccessDisciplined(read, Done);
    ReadSectionDisciplined(ACCESS, Either(Done, RefreshAccess(read, Done)), RENKU, {});
    RefreshSectionDisciplined(RENKU, Done, Done, {});
    ReadSectionDisciplined(RENKU, Either(Done, RefreshSection(RENKU, Done, Done)), RENKU, {});
  }

  /** Callers and the periodic refresh never deadlock. */
  lemma AuthNeverDeadlocks(mode: Mode, run: seq<System>, k: nat, busy: nat) returns (t: nat)
    requires Run(mode, PROGRAMS, run) && k < |run|
    requires busy < |run[k].threads| && !run[k].threads[busy].prog.Done?
    ensures t < |run[k].threads| && !run[k].threads[t].prog.Done?
    ensures Enabled(run[k].threads, run[k].threads[t])
  {
    ProgramsDisciplined();
    t := NoDeadlock(mode, PROGRAMS, RENKU, run, k, busy);
  }

  /** "v2": every request carries the latest token, given that no answer is lost and every answer
      carries a refresh token. */
  lemma V2PresentsLatest(run: seq<System>, k: nat, r: nat)
    requires Run(RenkuV2, PROGRAMS, run) && k < |run| && r < |run[k].tokens.answered|
    ensures var a := run[k].tokens.answered;
            var before := OutcomesOf(a[..r]);
            && (a[r].carried == a[r].latest <==> InStep(RenkuV2, before))
            && (Lost !in before && Received(false) !in before ==> a[r].carried == a[r].latest)
  {
    ProgramsDisciplined();
    RequestsCarryLatest(RenkuV2, PROGRAMS, RENKU, run, k, r);
    var before := OutcomesOf(run[k].tokens.answered[..r]);
    if Lost !in before && Received(false) !in before {
      StaysInStep(RenkuV2, before);
    }
  }

  /** The other client presents the latest token exactly until the server first rotates it. */
  lemma OpenIDPresentsSuperseded(run: seq<System>, k: nat, r: nat)
    requires Run(RenkuOpenID, PROGRAMS, run) && k < |run| && r < |run[k].tokens.answered|
    ensures var a := run[k].tokens.answered;
            a[r].carried == a[r].latest <==>
            forall i :: 0 <= i < r ==> a[i].outcome != Lost && a[i].outcome != Received(true)
  {
    ProgramsDisciplined();
    RequestsCarryLatest(RenkuOpenID, PROGRAMS, RENKU, run, k, r);
    var before := OutcomesOf(run[k].tokens.answered[..r]);
    InStepWithoutStoring(before);
    assert forall i :: 0 <= i < r ==> before[i] == run[k].tokens.answered[i].outcome;
  }

  lemma ProgramsTakeOneLock()
    ensures forall p :: p in PROGRAMS ==> OneAtATime(p, {}, {})
  {
    var none: set<LockId> := {};
    assert none + none == none && (none + {RENKU}) - {RENKU} == none && (none + {ACCESS}) - {ACCESS} == none;
    var read := ReadSection(ACCESS, Done);
    RefreshTakesOneLock(Done, Done);
    OneReadLock(ACCESS, Done);
    AccessTakesOneLock(read, Done);
    OneReadLock(ACCESS, Either(Done, RefreshAccess(read, Done)));
    OneReadLock(RENKU, Either(Done, RefreshSection(RENKU, Done, Done)));
  }

  lemma OneReadLock(l: LockId, next: Prog)
    requires OneAtATime(next, {}, {})
    ensures OneAtATime(ReadSection(l, next), {}, {})
  {
    var none: set<LockId> := {};
    assert none + none == none && (none + {l}) - {l} == none;
    assert OneAtATime(Then(RUnlock(l), next), none + {l}, {});
  }

  lemma OneWriteLock(l: LockId, next: Prog)
    requires OneAtATime(next, {}, {})
    ensures OneAtATime(Then(Unlock(l), next), {}, {} + {l}) && OneAtATime(Then(Local, Then(Unlock(l), next)), {}, {} + {l})
  {
    var none: set<LockId> := {};
    assert (none + {l}) - {l} == none;
    assert OneAtATime(Then(Unlock(l), next), {}, none + {l});
  }

  lemma RefreshTakesOneLock(ok: Prog, err: Prog)
    requires OneAtATime(ok, {}, {}) && OneAtATime(err, {}, {})
    ensures OneAtATime(RefreshSection(RENKU, ok, err), {}, {})
  {
    var none: set<LockId> := {};
    assert none + none == none;
    OneWriteLock(RENKU, ok);
    OneWriteLock(RENKU, err);
    var answered := Either(Then(Unlock(RENKU), err), Then(Local, Then(Unlock(RENKU), ok)));
    assert OneAtATime(Then(Send, Then(Reply, answered)), {}, none + {RENKU});
  }

  lemma AccessTakesOneLock(ok: Prog, err: Prog)
    requires OneAtATime(ok, {}, {}) && OneAtATime(err, {}, {})
    ensures OneAtATime(RefreshAccess(ok, err), {}, {})
  {
    var none: set<LockId> := {};
    assert none + none == none;
    OneWriteLock(ACCESS, ok);
    OneWriteLock(ACCESS, err);
    var exchange := Either(Then(Unlock(ACCESS), err), Then(Local, Then(Unlock(ACCESS), ok)));
    assert OneAtATime(Then(Local, exchange), {}, none + {ACCESS});
    var locked := Then(Lock(ACCESS), Then(Local, exchange));
    assert OneAtATime(locked, {}, {});
    OneReadLock(RENKU, locked);
    RefreshTakesOneLock(ReadSection(RENKU, locked), err);
    OneReadLock(RENKU, Either(locked, RefreshSection(RENKU, ReadSection(RENKU, locked), err)));
  }

  /** The two locks are never held together. */
  lemma NeverBothLocks(mode: Mode, run: seq<System>, k: nat, u: nat)
    requires Run(mode, PROGRAMS, run) && k < |run| && u < |run[k].threads|
    ensures var held := run[k].threads[u].rlocks + run[k].threads[u].wlocks; !(RENKU in held && ACCESS in held)
  {
    ProgramsTakeOneLock();
    NeverTwoLocks(mode, PROGRAMS, run, k, u);
  }

  // ---------------------------------------------------------------- a run of that client

  /** The refresh token is read and found to be due. */
  lemma FoundDue(mode: Mode, run: seq<System>, tokens: Tokens) returns (run': seq<System>)
    requires RunsTo(mode, PROGRAMS, run, IDLE, tokens)
    ensures RunsTo(mode, PROGRAMS, run', IDLE.(prog := RefreshSection(RENKU, Done, Done)), tokens)
  {
    var due := RefreshSection(RENKU, Done, Done);
    run' := Begun(mode, PROGRAMS, run, PeriodicRefresh(), tokens);
    run' := ReadThrough(mode, PROGRAMS, run', IDLE.(prog := PeriodicRefresh()), RENKU, Either(Done, due), tokens);
    run' := OneStep(mode, PROGRAMS, run', IDLE.(prog := Either(Done, due)), tokens, IDLE.(prog := due), tokens);
  }

  /** The write lock is taken, the token exchanged, and the answer stored. */
  lemma Exchanged(mode: Mode, run: seq<System>, tokens: Tokens, o: Outcome) returns (run': seq<System>)
    requires RunsTo(mode, PROGRAMS, run, IDLE.(prog := RefreshSection(RENKU, Done, Done)), tokens)
    ensures RunsTo(mode, PROGRAMS, run', IDLE, Answered(mode, tokens, tokens.stored, o))
  {
    var fail, store := Then(Unlock(RENKU), Done), Then(Local, Then(Unlock(RENKU), Done));
    var send := Then(Send, Then(Reply, Either(fail, store)));
    assert {} + {RENKU} == {RENKU} && {RENKU} - {RENKU} == {};
    var inside := IDLE.(prog := Either(fail, send), wlocks := {RENKU});
    var sent := inside.(prog := Then(Reply, Either(fail, store)), inflight := Request(tokens.stored));
    var tokens' := Answered(mode, tokens, tokens.stored, o);
    run' := LockTaken(mode, PROGRAMS, run, IDLE.(prog := RefreshSection(RENKU, Done, Done)), RENKU, Either(fail, send), tokens);
    run' := OneStep(mode, PROGRAMS, run', inside, tokens, inside.(prog := send), tokens);
    run' := OneStep(mode, PROGRAMS, run', inside.(prog := send), tokens, sent, tokens);
    run' := OneStep(mode, PROGRAMS, run', sent, tokens, inside.(prog := Either(fail, store)), tokens');
    run' := OneStep(mode, PROGRAMS, run', inside.(prog := Either(fail, store)), tokens', inside.(prog := store), tokens');
    run' := OneStep(mode, PROGRAMS, run', inside.(prog := store), tokens', inside.(prog := fail), tokens');
    run' := OneStep(mode, PROGRAMS, run', inside.(prog := fail), tokens', IDLE, tokens');
  }

  /** Two turns of the periodic refresh are enough: the server answers the first with a new refresh
      token, and the second presents the old one. */
  lemma SecondRefreshIsSuperseded(o: Outcome) returns (run: seq<System>, k: nat)
    ensures Run(RenkuOpenID, PROGRAMS, run) && k < |run|
    ensures var a := run[k].tokens.answered;
            |a| == 2 && a[0] == RefreshTokens.Answer(1, 1, Received(true)) && a[1] == RefreshTokens.Answer(1, 2, o)
  {
    var t0 := FirstTokens();
    var t1 := Answered(RenkuOpenID, t0, t0.stored, Received(true));
    var t2 := Answered(RenkuOpenID, t1, t1.stored, o);
    run := [Alone(IDLE, t0)];
    run := FoundDue(RenkuOpenID, run, t0);
    run := Exchanged(RenkuOpenID, run, t0, Received(true));
    run := FoundDue(RenkuOpenID, run, t1);
    run := Exchanged(RenkuOpenID, run, t1, o);
    k := |run| - 1;
    assert run[k].tokens == t2;
  }

  /** A caller can come to ask FirecREST for a token, under the access lock. */
  lemma AccessRefreshedUnderLock(mode: Mode) returns (run: seq<System>, k: nat)
    ensures Run(mode, PROGRAMS, run) && k < |run| && |run[k].threads| == 1 && run[k].threads[0].wlocks == {ACCESS}
  {
    var tokens := FirstTokens();
    var read := ReadSection(ACCESS, Done);
    var refresh := RefreshAccess(read, Done);
    var fail := Then(Unlock(ACCESS), Done);
    var exchange := Then(Local, Either(fail, Then(Local, Then(Unlock(ACCESS), read))));
    var locked := Then(Lock(ACCESS), exchange);
    var renku := RefreshSection(RENKU, ReadSection(RENKU, locked), Done);
    run := [Alone(IDLE, tokens)];
    run := Begun(mode, PROGRAMS, run, GetAccess(), tokens);
    run := ReadThrough(mode, PROGRAMS, run, IDLE.(prog := GetAccess()), ACCESS, Either(Done, refresh), tokens);
    run := OneStep(mode, PROGRAMS, run, IDLE.(prog := Either(Done, refresh)), tokens, IDLE.(prog := refresh), tokens);
    run := ReadThrough(mode, PROGRAMS, run, IDLE.(prog := refresh), RENKU, Either(locked, renku), tokens);
    run := OneStep(mode, PROGRAMS, run, IDLE.(prog := Either(locked, renku)), tokens, IDLE.(prog := locked), tokens);
    run := LockTaken(mode, PROGRAMS, run, IDLE.(prog := locked), ACCESS, exchange, tokens);
    assert {} + {ACCESS} == {ACCESS};
    k := |run| - 1;
  }

  // ---------------------------------------------------------------- one call, undisturbed

  /** A decoded answer of either token endpoint.  `readable`: the access token can be parsed. */
  datatype Answer = Refused | Granted(access: string, refresh: Token, readable: bool, expiresAt: Time)

  datatype Cached = Cached(token: string, expiresAt: Time)

  predicate Good(c: Cached, now: Time) {
    StillGood(c.token != "", c.expiresAt, now)
  }

  class Auth {
    const v2: bool
    var access: Cached          // for FirecREST
    var renkuAccess: Cached
    var renkuRefresh: Token

    constructor (v2: bool, renkuAccess: Cached, renkuRefresh: Token)
      ensures this.v2 == v2 && access == Cached("", UNSET)
      ensures this.renkuAccess == renkuAccess && this.renkuRefresh == renkuRefresh
    {
      this.v2, this.renkuAccess, this.renkuRefresh := v2, renkuAccess, renkuRefresh;
      access := Cached("", UNSET);
    }

    function Client(): Mode {
      if v2 then RenkuV2 else RenkuOpenID
    }

    /** "v2" keeps both tokens of an answer even when it cannot read the access token; the call then
        fails and the old expiry stays with the new token. */
    method RefreshRenku(answer: Answer) returns (ok: bool)
      modifies `renkuAccess, `renkuRefresh
      ensures ok <==> answer.Granted? && (v2 ==> answer.readable)
      ensures renkuRefresh == if answer.Granted? then Keep(Client(), old(renkuRefresh), answer.refresh) else old(renkuRefresh)
      ensures renkuAccess == if answer.Refused? then old(renkuAccess)
                             else Cached(answer.access, if ok then answer.expiresAt else old(renkuAccess.expiresAt))
    {
      if answer.Refused? {
        return false;
      }
      renkuAccess := renkuAccess.(token := answer.access);
      if v2 {
        renkuRefresh := answer.refresh;
        if !answer.readable {
          return false;
        }
      }
      renkuAccess := renkuAccess.(expiresAt := answer.expiresAt);
      ok := true;
    }

    /** A good cached token costs no request at either endpoint and changes nothing; a new one is
        asked for with a renku token that was good or has just been granted. */
    method GetAccess(now: Time, renku: Answer, firecrest: Answer) returns (token: Result<string>)
      modifies this
      ensures Good(old(access), now) <==>
                old(access.token) != "" && (old(access.expiresAt) == 0 || now + 10 < old(access.expiresAt))
      ensures Good(old(renkuAccess), now) <==>
                old(renkuAccess.token) != "" && (old(renkuAccess.expiresAt) == 0 || now + 10 < old(renkuAccess.expiresAt))
      ensures Good(old(access), now) ==>
                && token == Ok(old(access.token)) && access == old(access)
                && renkuAccess == old(renkuAccess) && renkuRefresh == old(renkuRefresh)
      ensures !Good(old(access), now) ==>
                var renkuOk := Good(old(renkuAccess), now) || (renku.Granted? && (v2 ==> renku.readable));
                && (token.Ok? <==> renkuOk && firecrest.Granted?)
                && access == (if token.Ok? then Cached(firecrest.access, firecrest.expiresAt) else old(access))
                && (token.Ok? ==> token.value == firecrest.access)
                && renkuRefresh == (if Good(old(renkuAccess), now) || renku.Refused? then old(renkuRefresh)
                                    else Keep(Client(), old(renkuRefresh), renku.refresh))
      ensures Good(old(renkuAccess), now) ==> renkuAccess == old(renkuAccess)
    {
      if access.token != "" && IsNotExpired(now, access.expiresAt, MARGIN, false) {
        return Ok(access.token);
      }
      if !(renkuAccess.token != "" && IsNotExpired(now, renkuAccess.expiresAt, MARGIN, false)) {
        var ok := RefreshRenku(renku);
        if !ok {
          return Err;
        }
      }
      if firecrest.Refused? {
        return Err;
      }
      access := Cached(firecrest.access, firecrest.expiresAt);
      token := Ok(access.token);
    }
  }
}
