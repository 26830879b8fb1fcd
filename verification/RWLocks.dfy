/** Threads that take reader/writer locks in the manner of Go's sync.RWMutex, and the theorem that
    threads which only ever take a lock above all those they hold cannot deadlock.

    A thread runs a program: a finite tree of instructions in which every data-dependent branch is
    a free choice.  A writer locks in two steps, as the Go runtime does: it first announces itself,
    which stops new readers, and then waits for the readers already inside.

    The instructions `Send` and `Reply` are the two halves of a refresh request made with a
    single-use refresh token (section 6 of RFC 6749).  What a reply does to the tokens is in
    `RefreshTokens`. */
module RWLocks {
  import opened RefreshTokens

  type LockId = nat

  datatype Instr =
    | RLock(l: LockId)
    | RUnlock(l: LockId)
    | Lock(l: LockId)
    | Unlock(l: LockId)
    | Local
    | Send
    | Reply

  datatype Prog = Done | Then(i: Instr, next: Prog) | Either(a: Prog, b: Prog)

  /** `announced` says that the thread has announced itself as the next writer of the lock that the
      `Lock` at the head of its program asks for.  `inflight` is the refresh token of a request that
      was sent and not yet answered. */
  datatype Thread = Thread(prog: Prog, rlocks: set<LockId>, wlocks: set<LockId>, announced: bool, inflight: InFlight)

  datatype InFlight = NoRequest | Request(token: Token)

  datatype System = System(threads: seq<Thread>, tokens: Tokens)

  ghost predicate Writing(threads: seq<Thread>, l: LockId) {
    exists u :: 0 <= u < |threads| && l in threads[u].wlocks
  }

  ghost predicate Reading(threads: seq<Thread>, l: LockId) {
    exists u :: 0 <= u < |threads| && l in threads[u].rlocks
  }

  predicate Announces(th: Thread, l: LockId) {
    th.announced && th.prog.Then? && th.prog.i == Lock(l)
  }

  ghost predicate Announced(threads: seq<Thread>, l: LockId) {
    exists u :: 0 <= u < |threads| && Announces(threads[u], l)
  }

  // ---------------------------------------------------------------- one step of one thread

  /** Thread `th` can take its next step. */
  ghost predicate Enabled(threads: seq<Thread>, th: Thread) {
    match th.prog
    case Done => false
    case Either(_, _) => true
    case Then(i, _) =>
      match i
      case RLock(l) => !Writing(threads, l) && !Announced(threads, l)
      case Lock(l) => if th.announced then !Reading(threads, l) else !Writing(threads, l) && !Announced(threads, l)
      case RUnlock(l) => l in th.rlocks
      case Unlock(l) => l in th.wlocks
      case Local => true
      case Send => true
      case Reply => th.inflight.Request?
  }

  /** What the step leaves of the thread. */
  ghost predicate Advances(th: Thread, th': Thread, tokens: Tokens) {
    match th.prog
    case Done => false
    case Either(a, b) => th' == th.(prog := a) || th' == th.(prog := b)
    case Then(i, next) =>
      match i
      case RLock(l) => th' == th.(prog := next, rlocks := th.rlocks + {l})
      case RUnlock(l) => th' == th.(prog := next, rlocks := th.rlocks - {l})
      case Lock(l) =>
        if th.announced then th' == th.(prog := next, wlocks := th.wlocks + {l}, announced := false)
        else th' == th.(announced := true)
      case Unlock(l) => th' == th.(prog := next, wlocks := th.wlocks - {l})
      case Local => th' == th.(prog := next)
      case Send => th' == th.(prog := next, inflight := Request(tokens.stored))
      case Reply => th' == th.(prog := next, inflight := NoRequest)
  }

  ghost predicate TokensAfter(mode: Mode, th: Thread, tokens: Tokens, tokens': Tokens) {
    if th.prog.Then? && th.prog.i.Reply? && th.inflight.Request?
    then exists o: Outcome :: tokens' == Answered(mode, tokens, th.inflight.token, o)
    else tokens' == tokens
  }

  ghost predicate StepOf(mode: Mode, s: System, t: nat, s': System) {
    && t < |s.threads|
    && |s'.threads| == |s.threads|
    && Enabled(s.threads, s.threads[t])
    && Advances(s.threads[t], s'.threads[t], s.tokens)
    && s'.threads == s.threads[t := s'.threads[t]]
    && TokensAfter(mode, s.threads[t], s.tokens, s'.tokens)
  }

  /** An idle thread begins one of the programs. */
  ghost predicate Begins(programs: set<Prog>, s: System, t: nat, s': System) {
    && t < |s.threads|
    && s.threads[t].prog.Done?
    && exists p :: p in programs && s' == s.(threads := s.threads[t := s.threads[t].(prog := p)])
  }

  ghost predicate Next(mode: Mode, programs: set<Prog>, s: System, s': System) {
    exists t: nat :: StepOf(mode, s, t, s') || Begins(programs, s, t, s')
  }

  const IDLE := Thread(Done, {}, {}, false, NoRequest)

  ghost predicate Init(s: System) {
    && (forall u :: 0 <= u < |s.threads| ==> s.threads[u] == IDLE)
    && s.tokens == FirstTokens()
  }

  ghost predicate Run(mode: Mode, programs: set<Prog>, run: seq<System>) {
    && |run| > 0
    && Init(run[0])
    && forall k {:trigger run[k]} :: 0 < k < |run| ==> Next(mode, programs, run[k - 1], run[k])
  }

  // ---------------------------------------------------------------- the discipline programs follow

  /** Programs take a lock only above all those they hold, release only what they hold, hold nothing
      at the end, and exchange the refresh token only inside the write section of lock `g`. */
  predicate Disciplined(p: Prog, g: LockId, rlocks: set<LockId>, wlocks: set<LockId>, sent: bool) {
    match p
    case Done => rlocks == {} && wlocks == {} && !sent
    case Either(a, b) => Disciplined(a, g, rlocks, wlocks, sent) && Disciplined(b, g, rlocks, wlocks, sent)
    case Then(i, next) =>
      match i
      case RLock(l) => Above(l, rlocks + wlocks) && Disciplined(next, g, rlocks + {l}, wlocks, sent)
      case Lock(l) => Above(l, rlocks + wlocks) && Disciplined(next, g, rlocks, wlocks + {l}, sent)
      case RUnlock(l) => l in rlocks && Disciplined(next, g, rlocks - {l}, wlocks, sent)
      case Unlock(l) => l in wlocks && !sent && Disciplined(next, g, rlocks, wlocks - {l}, sent)
      case Local => Disciplined(next, g, rlocks, wlocks, sent)
      case Send => g in wlocks && !sent && Disciplined(next, g, rlocks, wlocks, true)
      case Reply => sent && g in wlocks && Disciplined(next, g, rlocks, wlocks, false)
  }

  predicate Above(l: LockId, held: set<LockId>) {
    forall h :: h in held ==> h < l
  }

  ghost predicate AllDisciplined(programs: set<Prog>, g: LockId) {
    forall p :: p in programs ==> Disciplined(p, g, {}, {}, false)
  }

  // ---------------------------------------------------------------- the sections programs are made of

  // A section takes the programs to go on with: `ok` after success and `err` after an error.

  function ReadSection(l: LockId, next: Prog): Prog {
    Then(RLock(l), Then(Local, Then(RUnlock(l), next)))
  }

  /** Take the write lock, perhaps fail to build the request, send it, and store a good answer. */
  function RefreshSection(g: LockId, ok: Prog, err: Prog): Prog {
    var fail := Then(Unlock(g), err);
    Then(Lock(g), Either(fail, Then(Send, Then(Reply, Either(fail, Then(Local, Then(Unlock(g), ok)))))))
  }

  lemma ReadSectionDisciplined(l: LockId, next: Prog, g: LockId, w: set<LockId>)
    requires Above(l, w) && Disciplined(next, g, {}, w, false)
    ensures Disciplined(ReadSection(l, next), g, {}, w, false)
  {
    assert ({} + {l}) - {l} == {};
    assert Disciplined(Then(RUnlock(l), next), g, {} + {l}, w, false);
    assert {} + w == w;
  }

  lemma UnlockDisciplined(l: LockId, next: Prog, g: LockId, w: set<LockId>)
    requires Above(l, w) && Disciplined(next, g, {}, w, false)
    ensures Disciplined(Then(Unlock(l), next), g, {}, w + {l}, false)
    ensures Disciplined(Then(Local, Then(Unlock(l), next)), g, {}, w + {l}, false)
  {
    assert (w + {l}) - {l} == w;
    assert Disciplined(Then(Unlock(l), next), g, {}, w + {l}, false);
  }

  lemma RefreshSectionDisciplined(g: LockId, ok: Prog, err: Prog, w: set<LockId>)
    requires Above(g, w) && Disciplined(ok, g, {}, w, false) && Disciplined(err, g, {}, w, false)
    ensures Disciplined(RefreshSection(g, ok, err), g, {}, w, false)
  {
    UnlockDisciplined(g, ok, g, w);
    UnlockDisciplined(g, err, g, w);
    var answered := Either(Then(Unlock(g), err), Then(Local, Then(Unlock(g), ok)));
    assert Disciplined(answered, g, {}, w + {g}, false);
    assert Disciplined(Then(Send, Then(Reply, answered)), g, {}, w + {g}, false);
    assert {} + w == w;
  }

  // ---------------------------------------------------------------- what every step keeps

  predicate ThreadOk(th: Thread, g: LockId) {
    && Disciplined(th.prog, g, th.rlocks, th.wlocks, th.inflight.Request?)
    && (th.announced ==> th.prog.Then? && th.prog.i.Lock?)
    && (th.inflight.Request? ==> g in th.wlocks)
  }

  /** A writer is alone, and at most one thread is announced. */
  ghost predicate Exclusive(threads: seq<Thread>) {
    forall u, v, l {:trigger l in threads[u].wlocks, threads[v]} {:trigger Announces(threads[u], l), threads[v]} ::
      0 <= u < |threads| && 0 <= v < |threads| && u != v ==>
        && (l in threads[u].wlocks ==> l !in threads[v].wlocks && l !in threads[v].rlocks && !Announces(threads[v], l))
        && (Announces(threads[u], l) ==> !Announces(threads[v], l))
  }

  ghost predicate Inv(mode: Mode, g: LockId, s: System) {
    && (forall u :: 0 <= u < |s.threads| ==> ThreadOk(s.threads[u], g))
    && Exclusive(s.threads)
    && (forall u :: 0 <= u < |s.threads| && s.threads[u].inflight.Request? ==>
          s.threads[u].inflight.token == s.tokens.stored)
    && Consistent(mode, s.tokens)
  }

  lemma ThreadOkKept(th: Thread, th': Thread, tokens: Tokens, g: LockId)
    requires ThreadOk(th, g) && Advances(th, th', tokens)
    ensures ThreadOk(th', g)
  {
  }

  lemma ExclusiveKept(mode: Mode, g: LockId, s: System, t: nat, s': System)
    requires Exclusive(s.threads) && StepOf(mode, s, t, s') && ThreadOk(s.threads[t], g)
    ensures Exclusive(s'.threads)
  {
    var a, b := s.threads, s'.threads;
    forall u, v, l: LockId | 0 <= u < |b| && 0 <= v < |b| && u != v
      ensures l in b[u].wlocks ==> l !in b[v].wlocks && l !in b[v].rlocks && !Announces(b[v], l)
      ensures Announces(b[u], l) ==> !Announces(b[v], l)
    {
      assert u != t ==> b[u] == a[u];
      assert v != t ==> b[v] == a[v];
    }
  }

  lemma StepKeepsInv(mode: Mode, g: LockId, s: System, t: nat, s': System)
    requires Inv(mode, g, s) && StepOf(mode, s, t, s')
    ensures Inv(mode, g, s')
  {
    var th := s.threads[t];
    ThreadOkKept(th, s'.threads[t], s.tokens, g);
    ExclusiveKept(mode, g, s, t, s');
    if th.prog.Then? && th.prog.i.Reply? && th.inflight.Request? {
      var o: Outcome :| s'.tokens == Answered(mode, s.tokens, th.inflight.token, o);
      AnsweredKeepsConsistent(mode, s.tokens, o);
      forall u | 0 <= u < |s.threads| && u != t
        ensures !s.threads[u].inflight.Request?
      {
        assert ThreadOk(s.threads[u], g);
        assert g in th.wlocks && g !in s.threads[u].wlocks;
      }
    }
  }

  lemma BeginKeepsInv(mode: Mode, programs: set<Prog>, g: LockId, s: System, t: nat, s': System)
    requires AllDisciplined(programs, g) && Inv(mode, g, s) && Begins(programs, s, t, s')
    ensures Inv(mode, g, s')
  {
    var a, b := s.threads, s'.threads;
    assert ThreadOk(a[t], g);
    forall u, l: LockId | 0 <= u < |b|
      ensures Announces(b[u], l) == Announces(a[u], l) && b[u].rlocks == a[u].rlocks && b[u].wlocks == a[u].wlocks
    {
    }
  }

  lemma {:induction false} RunKeepsInv(mode: Mode, programs: set<Prog>, g: LockId, run: seq<System>, k: nat)
    requires AllDisciplined(programs, g) && Run(mode, programs, run) && k < |run|
    ensures Inv(mode, g, run[k])
  {
    if k == 0 {
      FirstTokensConsistent(mode);
    } else {
      RunKeepsInv(mode, programs, g, run, k - 1);
      assert Next(mode, programs, run[k - 1], run[k]);
      var t: nat :| StepOf(mode, run[k - 1], t, run[k]) || Begins(programs, run[k - 1], t, run[k]);
      if StepOf(mode, run[k - 1], t, run[k]) {
        StepKeepsInv(mode, g, run[k - 1], t, run[k]);
      } else {
        BeginKeepsInv(mode, programs, g, run[k - 1], t, run[k]);
      }
    }
  }

  /** The locks lock: while one thread writes, no other reads or writes; and while a writer waits, no
      thread begins to read. */
  lemma LocksExclude(mode: Mode, programs: set<Prog>, g: LockId, run: seq<System>, k: nat, u: nat, v: nat, l: LockId)
    requires AllDisciplined(programs, g) && Run(mode, programs, run) && k < |run|
    requires u < |run[k].threads| && v < |run[k].threads| && u != v
    ensures l in run[k].threads[u].wlocks ==> l !in run[k].threads[v].wlocks && l !in run[k].threads[v].rlocks
    ensures Announces(run[k].threads[u], l) && run[k].threads[v].prog.Then? && run[k].threads[v].prog.i == RLock(l) ==>
              !Enabled(run[k].threads, run[k].threads[v])
  {
    RunKeepsInv(mode, programs, g, run, k);
    assert l in run[k].threads[u].wlocks ==> l !in run[k].threads[v].wlocks;
  }

  // ---------------------------------------------------------------- one lock at a time

  /** The program takes no lock while it holds one. */
  predicate OneAtATime(p: Prog, rlocks: set<LockId>, wlocks: set<LockId>) {
    match p
    case Done => rlocks == {} && wlocks == {}
    case Either(a, b) => OneAtATime(a, rlocks, wlocks) && OneAtATime(b, rlocks, wlocks)
    case Then(i, next) =>
      match i
      case RLock(l) => rlocks + wlocks == {} && OneAtATime(next, rlocks + {l}, wlocks)
      case Lock(l) => rlocks + wlocks == {} && OneAtATime(next, rlocks, wlocks + {l})
      case RUnlock(l) => OneAtATime(next, rlocks - {l}, wlocks)
      case Unlock(l) => OneAtATime(next, rlocks, wlocks - {l})
      case _ => OneAtATime(next, rlocks, wlocks)
  }

  predicate HoldsOne(th: Thread) {
    && OneAtATime(th.prog, th.rlocks, th.wlocks)
    && forall a, b :: a in th.rlocks + th.wlocks && b in th.rlocks + th.wlocks ==> a == b
  }

  lemma HoldsOneKept(th: Thread, th': Thread, tokens: Tokens)
    requires HoldsOne(th) && Advances(th, th', tokens)
    ensures HoldsOne(th')
  {
    var held, held' := th.rlocks + th.wlocks, th'.rlocks + th'.wlocks;
    if th.prog.Then? && (th.prog.i.RLock? || th.prog.i.Lock?) {
      assert held == {} && held' <= {th.prog.i.l};
    } else {
      assert held' <= held;
    }
  }

  /** A thread whose programs take one lock at a time never holds two, at any point of any run. */
  lemma {:induction false} NeverTwoLocks(mode: Mode, programs: set<Prog>, run: seq<System>, k: nat, u: nat)
    requires forall p :: p in programs ==> OneAtATime(p, {}, {})
    requires Run(mode, programs, run) && k < |run| && u < |run[k].threads|
    ensures HoldsOne(run[k].threads[u])
  {
    if k > 0 {
      assert Next(mode, programs, run[k - 1], run[k]);
      var t: nat :| StepOf(mode, run[k - 1], t, run[k]) || Begins(programs, run[k - 1], t, run[k]);
      var before, after := run[k - 1].threads, run[k].threads;
      NeverTwoLocks(mode, programs, run, k - 1, u);
      if u != t {
        assert after[u] == before[u];
      } else if StepOf(mode, run[k - 1], t, run[k]) {
        HoldsOneKept(before[t], after[t], run[k - 1].tokens);
      }
    }
  }

  // ---------------------------------------------------------------- no deadlock

  /** The lock that the thread's next step asks for, if it asks for one. */
  function Wants(th: Thread): (w: int)
    ensures w >= -1
  {
    if th.prog.Then? && th.prog.i.RLock? then th.prog.i.l
    else if th.prog.Then? && th.prog.i.Lock? then th.prog.i.l
    else -1
  }

  lemma {:induction false} Greediest(threads: seq<Thread>) returns (m: nat)
    requires |threads| > 0
    ensures m < |threads| && forall u :: 0 <= u < |threads| ==> Wants(threads[u]) <= Wants(threads[m])
  {
    if |threads| == 1 {
      m := 0;
    } else {
      var last := |threads| - 1;
      m := Greediest(threads[..last]);
      assert forall u :: 0 <= u < last ==> threads[..last][u] == threads[u];
      if Wants(threads[m]) < Wants(threads[last]) {
        m := last;
      }
    }
  }

  /** Whoever holds a lock is at work, and if it waits then it waits for a higher one. */
  lemma HolderWaitsHigher(th: Thread, g: LockId, l: LockId)
    requires ThreadOk(th, g) && l in th.rlocks + th.wlocks
    ensures !th.prog.Done?
    ensures Wants(th) >= 0 ==> l < Wants(th)
  {
  }

  /** In every reachable state in which a call is unfinished, some unfinished call can take a step. */
  lemma NoDeadlock(mode: Mode, programs: set<Prog>, g: LockId, run: seq<System>, k: nat, busy: nat)
    returns (t: nat)
    requires AllDisciplined(programs, g) && Run(mode, programs, run) && k < |run|
    requires busy < |run[k].threads| && !run[k].threads[busy].prog.Done?
    ensures t < |run[k].threads| && !run[k].threads[t].prog.Done?
    ensures Enabled(run[k].threads, run[k].threads[t])
  {
    RunKeepsInv(mode, programs, g, run, k);
    var threads := run[k].threads;
    var m := Greediest(threads);
    if Wants(threads[m]) < 0 {
      assert ThreadOk(threads[busy], g);
      assert Wants(threads[busy]) <= Wants(threads[m]);
      t := busy;
    } else if Enabled(threads, threads[m]) {
      t := m;
    } else {
      t := Unblock(threads, g, m);
    }
  }

  /** If the thread that wants the highest lock cannot go on, then the one in its way can. */
  lemma Unblock(threads: seq<Thread>, g: LockId, m: nat) returns (t: nat)
    requires forall u :: 0 <= u < |threads| ==> ThreadOk(threads[u], g)
    requires m < |threads| && Wants(threads[m]) >= 0
    requires forall u :: 0 <= u < |threads| ==> Wants(threads[u]) <= Wants(threads[m])
    requires !Enabled(threads, threads[m])
    ensures t < |threads| && !threads[t].prog.Done? && Enabled(threads, threads[t])
  {
    var l: LockId := Wants(threads[m]);
    if u: nat :| u < |threads| && l in threads[u].rlocks + threads[u].wlocks {
      HolderWaitsHigher(threads[u], g, l);
      t := u;
    } else {
      assert !Writing(threads, l) && !Reading(threads, l);
      t :| 0 <= t < |threads| && Announces(threads[t], l);
    }
  }

  // ---------------------------------------------------------------- calls are finite

  function Size(p: Prog): nat {
    match p
    case Done => 0
    case Then(_, next) => 1 + Size(next)
    case Either(a, b) => 1 + (if Size(a) < Size(b) then Size(b) else Size(a))
  }

  function StepsLeft(th: Thread): int {
    2 * Size(th.prog) - (if th.announced then 1 else 0)
  }

  lemma StepsRunOut(mode: Mode, s: System, t: nat, s': System, u: nat)
    requires StepOf(mode, s, t, s') && u < |s.threads|
    ensures if u == t then StepsLeft(s'.threads[u]) < StepsLeft(s.threads[u]) else s'.threads[u] == s.threads[u]
  {
  }

  /** Thread `u` moved on the way to state `k`. */
  predicate Moved(run: seq<System>, k: nat, u: nat)
    requires 0 < k < |run|
  {
    |run[k - 1].threads| == |run[k].threads| && u < |run[k].threads| && run[k].threads[u] != run[k - 1].threads[u]
  }

  /** How many times it did between two states. */
  function Moves(run: seq<System>, u: nat, i: nat, j: nat): nat
    requires i <= j < |run|
  {
    if i == j then 0 else Moves(run, u, i, j - 1) + if Moved(run, j, u) then 1 else 0
  }

  /** Between these states thread `u` does not begin another program. */
  predicate SameCall(run: seq<System>, u: nat, i: nat, j: nat)
    requires j < |run|
  {
    forall k {:trigger Moved(run, k, u)} :: i < k <= j && Moved(run, k, u) ==> !run[k - 1].threads[u].prog.Done?
  }

  lemma {:induction false} MovesUseUpSteps(mode: Mode, programs: set<Prog>, run: seq<System>, u: nat, i: nat, j: nat)
    requires Run(mode, programs, run) && i <= j < |run| && u < |run[i].threads| && SameCall(run, u, i, j)
    ensures |run[j].threads| == |run[i].threads|
    ensures Moves(run, u, i, j) <= StepsLeft(run[i].threads[u]) - StepsLeft(run[j].threads[u])
  {
    if i < j {
      assert SameCall(run, u, i, j - 1);
      MovesUseUpSteps(mode, programs, run, u, i, j - 1);
      assert Next(mode, programs, run[j - 1], run[j]);
      var t: nat :| StepOf(mode, run[j - 1], t, run[j]) || Begins(programs, run[j - 1], t, run[j]);
      if StepOf(mode, run[j - 1], t, run[j]) {
        StepsRunOut(mode, run[j - 1], t, run[j], u);
      } else {
        assert Moved(run, j, u) ==> u == t;
      }
    }
  }

  predicate AnnouncerOk(th: Thread) {
    th.announced ==> th.prog.Then? && th.prog.i.Lock?
  }

  lemma AnnouncerKept(th: Thread, th': Thread, tokens: Tokens)
    requires AnnouncerOk(th) && Advances(th, th', tokens)
    ensures AnnouncerOk(th')
  {
  }

  lemma {:induction false} AnnouncersWait(mode: Mode, programs: set<Prog>, run: seq<System>, u: nat, k: nat)
    requires Run(mode, programs, run) && k < |run| && u < |run[k].threads|
    ensures AnnouncerOk(run[k].threads[u])
  {
    if k > 0 {
      assert Next(mode, programs, run[k - 1], run[k]);
      var t: nat :| StepOf(mode, run[k - 1], t, run[k]) || Begins(programs, run[k - 1], t, run[k]);
      var before, after := run[k - 1].threads, run[k].threads;
      AnnouncersWait(mode, programs, run, u, k - 1);
      if u != t {
        assert after[u] == before[u];
      } else if StepOf(mode, run[k - 1], t, run[k]) {
        AnnouncerKept(before[t], after[t], run[k - 1].tokens);
      }
    }
  }

  /** No call goes on for ever: whatever the other threads do in between, a thread that works on
      program `p` takes at most twice as many steps as the longest way through `p` has instructions. */
  lemma CallsEnd(mode: Mode, programs: set<Prog>, run: seq<System>, u: nat, i: nat, j: nat)
    requires Run(mode, programs, run) && i <= j < |run| && u < |run[i].threads| && SameCall(run, u, i, j)
    ensures Moves(run, u, i, j) <= 2 * Size(run[i].threads[u].prog)
  {
    MovesUseUpSteps(mode, programs, run, u, i, j);
    AnnouncersWait(mode, programs, run, u, j);
  }

  // ---------------------------------------------------------------- the refresh token

  /** Every refresh request carries the most recently issued token exactly when the answers before
      it left the client in step with the server, whatever the interleaving. */
  lemma RequestsCarryLatest(mode: Mode, programs: set<Prog>, g: LockId, run: seq<System>, k: nat, r: nat)
    requires AllDisciplined(programs, g) && Run(mode, programs, run) && k < |run|
    requires r < |run[k].tokens.answered|
    ensures var a := run[k].tokens.answered;
            a[r].carried == a[r].latest <==> InStep(mode, OutcomesOf(a[..r]))
  {
    RunKeepsInv(mode, programs, g, run, k);
  }

  /** Two requests are never in flight together. */
  lemma OneRequestAtATime(mode: Mode, programs: set<Prog>, g: LockId, run: seq<System>, k: nat, u: nat, v: nat)
    requires AllDisciplined(programs, g) && Run(mode, programs, run) && k < |run|
    requires u < |run[k].threads| && v < |run[k].threads|
    requires run[k].threads[u].inflight.Request? && run[k].threads[v].inflight.Request?
    ensures u == v
  {
    RunKeepsInv(mode, programs, g, run, k);
    assert ThreadOk(run[k].threads[u], g) && ThreadOk(run[k].threads[v], g);
  }

  // ---------------------------------------------------------------- runs of a single thread

  /** A system of one thread. */
  function Alone(th: Thread, tokens: Tokens): System {
    System([th], tokens)
  }

  ghost predicate RunsTo(mode: Mode, programs: set<Prog>, run: seq<System>, th: Thread, tokens: Tokens) {
    Run(mode, programs, run) && run[|run| - 1] == Alone(th, tokens)
  }

  lemma OneStep(mode: Mode, programs: set<Prog>, run: seq<System>, th: Thread, tokens: Tokens, th': Thread, tokens': Tokens)
    returns (run': seq<System>)
    requires RunsTo(mode, programs, run, th, tokens)
    requires Enabled([th], th) && Advances(th, th', tokens) && TokensAfter(mode, th, tokens, tokens')
    ensures RunsTo(mode, programs, run', th', tokens')
  {
    var s, s' := Alone(th, tokens), Alone(th', tokens');
    assert s.threads[0 := th'] == s'.threads;
    assert StepOf(mode, s, 0, s');
    assert Next(mode, programs, s, s');
    run' := run + [s'];
  }

  lemma Begun(mode: Mode, programs: set<Prog>, run: seq<System>, p: Prog, tokens: Tokens) returns (run': seq<System>)
    requires RunsTo(mode, programs, run, IDLE, tokens) && p in programs
    ensures RunsTo(mode, programs, run', IDLE.(prog := p), tokens)
  {
    var s, s' := Alone(IDLE, tokens), Alone(IDLE.(prog := p), tokens);
    assert s.threads[0 := s'.threads[0]] == s'.threads;
    assert Begins(programs, s, 0, s');
    assert Next(mode, programs, s, s');
    run' := run + [s'];
  }

  /** A lock that is free can be taken for reading, looked under, and left again. */
  lemma ReadThrough(mode: Mode, programs: set<Prog>, run: seq<System>, th: Thread, l: LockId, next: Prog, tokens: Tokens)
    returns (run': seq<System>)
    requires RunsTo(mode, programs, run, th, tokens) && th.prog == ReadSection(l, next)
    requires l !in th.wlocks && l !in th.rlocks && !th.announced
    ensures RunsTo(mode, programs, run', th.(prog := next), tokens)
  {
    var unlock := Then(RUnlock(l), next);
    var locked := th.(prog := Then(Local, unlock), rlocks := th.rlocks + {l});
    run' := OneStep(mode, programs, run, th, tokens, locked, tokens);
    run' := OneStep(mode, programs, run', locked, tokens, locked.(prog := unlock), tokens);
    assert th.rlocks + {l} - {l} == th.rlocks;
    run' := OneStep(mode, programs, run', locked.(prog := unlock), tokens, th.(prog := next), tokens);
  }

  /** It can also be taken for writing, in two steps. */
  lemma LockTaken(mode: Mode, programs: set<Prog>, run: seq<System>, th: Thread, l: LockId, next: Prog, tokens: Tokens)
    returns (run': seq<System>)
    requires RunsTo(mode, programs, run, th, tokens) && th.prog == Then(Lock(l), next)
    requires l !in th.wlocks && l !in th.rlocks && !th.announced
    ensures RunsTo(mode, programs, run', th.(prog := next, wlocks := th.wlocks + {l}), tokens)
  {
    var waits := th.(announced := true);
    run' := OneStep(mode, programs, run, th, tokens, waits, tokens);
    run' := OneStep(mode, programs, run', waits, tokens, th.(prog := next, wlocks := th.wlocks + {l}), tokens);
  }

  /** A refresh can be sent, under the write lock. */
  lemma RefreshSent(mode: Mode, programs: set<Prog>, run: seq<System>, th: Thread, l: LockId, ok: Prog, err: Prog, tokens: Tokens)
    returns (run': seq<System>, th': Thread)
    requires RunsTo(mode, programs, run, th, tokens) && th.prog == RefreshSection(l, ok, err)
    requires l !in th.wlocks && l !in th.rlocks && !th.announced
    ensures RunsTo(mode, programs, run', th', tokens)
    ensures th'.wlocks == th.wlocks + {l} && th'.rlocks == th.rlocks && th'.inflight == Request(tokens.stored)
  {
    var fail := Then(Unlock(l), err);
    var reply := Then(Reply, Either(fail, Then(Local, Then(Unlock(l), ok))));
    run' := LockTaken(mode, programs, run, th, l, Either(fail, Then(Send, reply)), tokens);
    var inside := th.(prog := Then(Send, reply), wlocks := th.wlocks + {l});
    run' := OneStep(mode, programs, run', inside.(prog := Either(fail, Then(Send, reply))), tokens, inside, tokens);
    th' := inside.(prog := reply, inflight := Request(tokens.stored));
    run' := OneStep(mode, programs, run', inside, tokens, th', tokens);
  }
}
