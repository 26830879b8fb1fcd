/** The Run:AI token cache under concurrent callers: the second look at the token, taken once the
    write lock is held, bounds how often a new token is requested. */
module RunaiAuth {
  import opened Expiry
  import opened Wrappers

  /** The cached token: whether it is non-empty, and when it expires. */
  datatype Cache = Cache(present: bool, expiresAt: Time)

  const EMPTY := Cache(false, UNSET)

  predicate Good(c: Cache, now: Time) {
    StillGood(c.present, c.expiresAt, now)
  }

  /** Where a caller of `GetAccessToken` is.  The clock moves between any two of these points. */
  datatype Caller =
    | Idle
    | FirstLook(seen: Cache)       // copied the fields under the read lock
    | Waiting                      // wants the write lock
    | Inside                       // holds the write lock

  /** Where the holder of the write lock is; `NoWriter` if the lock is free. */
  datatype Writer =
    | NoWriter
    | SecondLook(seen: Cache)      // copied the fields again
    | Requesting                   // the request is under way
    | Storing(result: Cache)       // the answer is decoded

  /** One answered request: when, whether the token was non-empty, and its lifetime. */
  datatype Refresh = Refresh(at: Time, present: bool, expiresIn: int)

  datatype System = System(now: Time, cache: Cache, callers: seq<Caller>, writer: Writer, refreshes: seq<Refresh>)

  datatype Event =
    | Tick(seconds: nat)
    | Look(t: nat)                                // read-lock, copy, unlock
    | DecideFirst(t: nat)                         // compare the copy with the clock
    | Acquire(t: nat)                             // write-lock and copy again
    | DecideSecond(t: nat)                        // compare again: unlock, or go on to the request
    | Fail(t: nat)                                // the request fails, unlock
    | Answer(t: nat, present: bool, expiresIn: int)
    | Store(t: nat)                               // write the fields, unlock

  function Move(s: System, t: nat, c: Caller, w: Writer): System
    requires t < |s.callers|
  {
    s.(callers := s.callers[t := c], writer := w)
  }

  predicate Allowed(s: System, e: Event) {
    match e
    case Tick(_) => true
    case Look(t) => t < |s.callers| && s.callers[t].Idle? && s.writer.NoWriter?
    case DecideFirst(t) => t < |s.callers| && s.callers[t].FirstLook?
    case Acquire(t) => t < |s.callers| && s.callers[t].Waiting? && s.writer.NoWriter?
    case DecideSecond(t) => t < |s.callers| && s.callers[t].Inside? && s.writer.SecondLook?
    case Fail(t) => t < |s.callers| && s.callers[t].Inside? && s.writer.Requesting?
    case Answer(t, _, expiresIn) =>
      t < |s.callers| && s.callers[t].Inside? && s.writer.Requesting? && s.now + expiresIn > UNSET
    case Store(t) => t < |s.callers| && s.callers[t].Inside? && s.writer.Storing?
  }

  function Step(s: System, e: Event): System
    requires Allowed(s, e)
  {
    match e
    case Tick(d) => s.(now := s.now + d)
    case Look(t) => Move(s, t, FirstLook(s.cache), s.writer)
    case DecideFirst(t) => Move(s, t, if Good(s.callers[t].seen, s.now) then Idle else Waiting, s.writer)
    case Acquire(t) => Move(s, t, Inside, SecondLook(s.cache))
    case DecideSecond(t) =>
      if Good(s.writer.seen, s.now) then Move(s, t, Idle, NoWriter) else Move(s, t, Inside, Requesting)
    case Fail(t) => Move(s, t, Idle, NoWriter)
    case Answer(t, present, expiresIn) =>
      Move(s, t, Inside, Storing(Cache(present, s.now + expiresIn)))
      .(refreshes := s.refreshes + [Refresh(s.now, present, expiresIn)])
    case Store(t) => Move(s, t, Idle, NoWriter).(cache := s.writer.result)
  }

  ghost predicate Init(s: System) {
    && s.cache == EMPTY
    && s.writer == NoWriter
    && s.refreshes == []
    && forall u :: 0 <= u < |s.callers| ==> s.callers[u] == Idle
  }

  ghost predicate Run(run: seq<System>, events: seq<Event>) {
    && |run| == |events| + 1
    && Init(run[0])
    && forall k {:trigger events[k]} :: 0 <= k < |events| ==>
         Allowed(run[k], events[k]) && run[k + 1] == Step(run[k], events[k])
  }

  // ---------------------------------------------------------------- what every step keeps

  /** After the answer `r`, another request may come from now on. */
  predicate Over(r: Refresh, now: Time) {
    r.present ==> r.at + r.expiresIn - MARGIN <= now
  }

  predicate Fills(r: Refresh, c: Cache) {
    c.present == r.present && c.expiresAt == r.at + r.expiresIn
  }

  ghost predicate Spaced(rs: seq<Refresh>) {
    forall i {:trigger rs[i]} :: 0 < i < |rs| ==> rs[i - 1].at <= rs[i].at && Over(rs[i - 1], rs[i].at)
  }

  /** The last answer is in the cache, or in the hands of the writer. */
  predicate LastKept(s: System, last: Refresh) {
    && last.at <= s.now
    && last.at + last.expiresIn > UNSET
    && Fills(last, if s.writer.Storing? then s.writer.result else s.cache)
    && (s.writer.Requesting? ==> Over(last, s.now))
  }

  ghost predicate Inv(s: System) {
    && Spaced(s.refreshes)
    && (s.refreshes != [] ==> LastKept(s, s.refreshes[|s.refreshes| - 1]))
    && (s.writer.SecondLook? ==> s.writer.seen == s.cache)
  }

  lemma StaysSpaced(rs: seq<Refresh>, r: Refresh)
    requires Spaced(rs)
    requires rs != [] ==> rs[|rs| - 1].at <= r.at && Over(rs[|rs| - 1], r.at)
    ensures Spaced(rs + [r])
  {
    var rs' := rs + [r];
    forall i | 0 < i < |rs'|
      ensures rs'[i - 1].at <= rs'[i].at && Over(rs'[i - 1], rs'[i].at)
    {
      assert i < |rs| ==> rs'[i] == rs[i];
    }
  }

  lemma StepKeepsInv(s: System, e: Event)
    requires Inv(s) && Allowed(s, e)
    ensures Inv(Step(s, e))
  {
    if e.Answer? {
      StaysSpaced(s.refreshes, Refresh(s.now, e.present, e.expiresIn));
    }
  }

  lemma {:induction false} RunKeepsInv(run: seq<System>, events: seq<Event>, k: nat)
    requires Run(run, events) && k < |run|
    ensures Inv(run[k])
  {
    if k > 0 {
      RunKeepsInv(run, events, k - 1);
      assert Allowed(run[k - 1], events[k - 1]);
      StepKeepsInv(run[k - 1], events[k - 1]);
    }
  }

  // ---------------------------------------------------------------- the bound

  /** However many callers race, a request that follows a non-empty token comes no earlier than ten
      seconds before that token expires. */
  lemma NextRefreshWaits(run: seq<System>, events: seq<Event>, k: nat, i: nat)
    requires Run(run, events) && k < |run| && i + 1 < |run[k].refreshes|
    ensures var rs := run[k].refreshes;
            rs[i].present ==> rs[i + 1].at - rs[i].at >= rs[i].expiresIn - MARGIN
  {
    RunKeepsInv(run, events, k);
    assert Over(run[k].refreshes[i + 1 - 1], run[k].refreshes[i + 1].at);
  }

  /** n refreshes that all brought a non-empty token good for at least E seconds take at least
      (n - 1) * (E - 10) seconds. */
  lemma {:induction false} RefreshRateBounded(run: seq<System>, events: seq<Event>, k: nat, i: nat, n: nat, E: int)
    requires Run(run, events) && k < |run| && n > 0 && i + n <= |run[k].refreshes|
    requires forall j :: i <= j < i + n ==> run[k].refreshes[j].present && run[k].refreshes[j].expiresIn >= E
    ensures (n - 1) * (E - MARGIN) <= run[k].refreshes[i + n - 1].at - run[k].refreshes[i].at
  {
    if n > 1 {
      RefreshRateBounded(run, events, k, i, n - 1, E);
      NextRefreshWaits(run, events, k, i + n - 2);
      assert run[k].refreshes[i + n - 2].expiresIn >= E;
    }
  }

  /** A caller goes away with the token it copied exactly if that is there and has no expiry or more
      than ten seconds left; otherwise it goes on to refresh it. */
  lemma HandedOutIsGood(s: System, t: nat)
    requires Allowed(s, DecideFirst(t))
    ensures var seen := s.callers[t].seen;
            Step(s, DecideFirst(t)).callers[t] ==
              if seen.present && (seen.expiresAt == 0 || s.now + 10 < seen.expiresAt) then Idle else Waiting
  {
  }

  /** And the same at the second look, where the alternative is a request. */
  lemma SecondLookIsGood(s: System, t: nat)
    requires Allowed(s, DecideSecond(t))
    ensures var seen, s' := s.writer.seen, Step(s, DecideSecond(t));
            if seen.present && (seen.expiresAt == 0 || s.now + 10 < seen.expiresAt)
            then s'.callers[t] == Idle && s'.writer == NoWriter
            else s'.callers[t] == Inside && s'.writer == Requesting
  {
  }

  // ---------------------------------------------------------------- one call, undisturbed

  datatype TokenAnswer = NoAnswer | Token(token: string, expiresIn: int)

  class Auth {
    var accessToken: string
    var accessTokenExpiresAt: Time

    function View(): Cache
      reads this
    {
      Cache(accessToken != "", accessTokenExpiresAt)
    }

    constructor ()
      ensures View() == EMPTY
    {
      accessToken, accessTokenExpiresAt := "", UNSET;
    }

    /** `looked`: when the cached token was checked; `answered`: when the answer was decoded. */
    method RefreshAccessToken(looked: Time, answered: Time, answer: TokenAnswer) returns (r: Result<string>)
      requires looked <= answered && (answer.Token? ==> answered + answer.expiresIn > UNSET)
      modifies this
      ensures Good(old(View()), looked) ==> r == Ok(old(accessToken)) && View() == old(View())
      ensures Good(old(View()), looked) <==>
                old(accessToken) != "" && (old(accessTokenExpiresAt) == 0 || looked + 10 < old(accessTokenExpiresAt))
      ensures !Good(old(View()), looked) && answer.NoAnswer? ==> r == Err && View() == old(View())
      ensures !Good(old(View()), looked) && answer.Token? ==>
                r == Ok(answer.token) && View() == Cache(answer.token != "", answered + answer.expiresIn)
      ensures r.Ok? ==> r.value == accessToken
    {
      if accessToken != "" && IsNotExpired(looked, accessTokenExpiresAt, MARGIN, false) {
        return Ok(accessToken);
      }
      if answer.NoAnswer? {
        return Err;
      }
      accessToken := answer.token;
      accessTokenExpiresAt := answered + answer.expiresIn;
      r := Ok(accessToken);
    }

    method GetAccessToken(first: Time, second: Time, answered: Time, answer: TokenAnswer) returns (r: Result<string>)
      requires first <= second <= answered && (answer.Token? ==> answered + answer.expiresIn > UNSET)
      modifies this
      ensures Good(old(View()), first) <==>
                old(accessToken) != "" && (old(accessTokenExpiresAt) == 0 || first + 10 < old(accessTokenExpiresAt))
      ensures Good(old(View()), first) ==> r == Ok(old(accessToken)) && View() == old(View())
      ensures !Good(old(View()), first) ==>
                if answer.Token? then r == Ok(answer.token) && View() == Cache(answer.token != "", answered + answer.expiresIn)
                else r == Err && View() == old(View())
    {
      if accessToken != "" && IsNotExpired(first, accessTokenExpiresAt, MARGIN, false) {
        return Ok(accessToken);
      }
      r := RefreshAccessToken(second, answered, answer);
    }
  }
}
